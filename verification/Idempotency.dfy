/** Idempotency keys and the in-memory store that claims, completes and releases them. */
module Idempotency {
  import opened Wrappers

  datatype Key = Key(tenantId: string, merchantId: string, key: string)

  datatype State<R> = InFlight | Completed(result: R)

  type Table<R> = map<Key, State<R>>

  function Current<R>(table: Table<R>, key: Key): Option<State<R>> {
    if key in table then Some(table[key]) else None
  }

  /** A claim takes a key nobody holds and leaves every other key alone. */
  function Claimed<R>(table: Table<R>, key: Key): Table<R> {
    if key in table then table else table[key := InFlight]
  }

  /** Only an unfinished claim can be dropped. */
  function Released<R>(table: Table<R>, key: Key): Table<R> {
    if key in table && table[key].InFlight? then table - {key} else table
  }

  class InMemoryIdempotencyStore<R> {
    var table: Table<R>

    constructor ()
      ensures table == map[]
    {
      table := map[];
    }

    /** The state found, or nothing when this call took the key. */
    method Claim(key: Key) returns (found: Option<State<R>>)
      modifies this
      ensures found == Current(old(table), key)
      ensures table == Claimed(old(table), key)
      ensures found.None? ==> Current(table, key) == Some(InFlight)
    {
      if key in table {
        return Some(table[key]);
      }
      table := table[key := InFlight];
      return None;
    }

    method Complete(key: Key, result: R)
      modifies this
      ensures table == old(table)[key := Completed(result)]
    {
      table := table[key := Completed(result)];
    }

    method Release(key: Key)
      modifies this
      ensures table == Released(old(table), key)
      ensures old(key in table && table[key].Completed?) ==> table == old(table)
    {
      if key in table && table[key].InFlight? {
        table := table - {key};
      }
    }
  }
}
