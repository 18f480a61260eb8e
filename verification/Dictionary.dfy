/**
 Structured-field dictionaries (section 3.2 of RFC 8941): the flag-driven scanner
 that splits a header into `key=value` members.
 */
module Dictionary {
  import opened Wrappers
  import opened Text

  datatype FieldError = Unbalanced | NotKeyValue(member: string)

  type Member = (string, string)

  /** The scanner's variables. */
  datatype Scan = Scan(members: seq<string>, current: string, inString: bool, inBytes: bool,
                       depth: nat, escaped: bool)
  {
    predicate Closed() {
      !inString && !inBytes && depth == 0
    }

    /** The raw members once the input has ended. */
    function Pieces(): seq<string> {
      members + [current]
    }
  }

  const START := Scan([], "", false, false, 0, false)

  /** One character. */
  function Step(s: Scan, ch: char): Scan {
    var kept := s.current + [ch];
    if s.escaped then s.(escaped := false, current := kept)
    else if ch == '\\' && s.inString then s.(escaped := true, current := kept)
    else if ch == '"' && !s.inBytes then s.(inString := !s.inString, current := kept)
    else if ch == ':' && !s.inString then s.(inBytes := !s.inBytes, current := kept)
    else if ch == '(' && !s.inString && !s.inBytes then s.(depth := s.depth + 1, current := kept)
    else if ch == ')' && !s.inString && !s.inBytes then
      s.(depth := if s.depth > 0 then s.depth - 1 else 0, current := kept)
    else if ch == ',' && !s.inString && !s.inBytes && s.depth == 0 then
      s.(members := s.members + [s.current], current := "")
    else s.(current := kept)
  }

  function ScanAll(s: Scan, text: string): Scan
    decreases |text|
  {
    if text == "" then s else ScanAll(Step(s, text[0]), text[1..])
  }

  /** Trim each raw member, drop the empty ones, cut the rest at the first `=`. */
  function Members(pieces: seq<string>): Result<seq<Member>, FieldError> {
    if pieces == [] then Ok([]) else
      var m := Trim(pieces[0]);
      if m == "" then Members(pieces[1..]) else
        match SplitOnce(m, '=')
        case None => Err(NotKeyValue(m))
        case Some(kv) =>
          match Members(pieces[1..])
          case Err(e) => Err(e)
          case Ok(rest) => Ok([(Trim(kv.0), Trim(kv.1))] + rest)
  }

  function Parse(header: string): Result<seq<Member>, FieldError> {
    var s := ScanAll(START, header);
    if s.Closed() then Members(s.Pieces()) else Err(Unbalanced)
  }

  /** The scanner as it runs: one pass, updating its variables per character. */
  method ParseDictionary(header: string) returns (result: Result<seq<Member>, FieldError>)
    ensures result == Parse(header)
  {
    var members: seq<string> := [];
    var current := "";
    var inString, inBytes, escaped := false, false, false;
    var depth: nat := 0;
    var i := 0;
    while i < |header|
      invariant 0 <= i <= |header|
      invariant ScanAll(START, header)
             == ScanAll(Scan(members, current, inString, inBytes, depth, escaped), header[i..])
    {
      var ch := header[i];
      assert header[i..][0] == ch && header[i..][1..] == header[i + 1..];
      i := i + 1;
      if escaped {
        escaped := false;
      } else if ch == '\\' && inString {
        escaped := true;
      } else if ch == '"' && !inBytes {
        inString := !inString;
      } else if ch == ':' && !inString {
        inBytes := !inBytes;
      } else if ch == '(' && !inString && !inBytes {
        depth := depth + 1;
      } else if ch == ')' && !inString && !inBytes {
        depth := if depth > 0 then depth - 1 else 0;
      } else if ch == ',' && !inString && !inBytes && depth == 0 {
        members := members + [current];
        current := "";
        continue;
      }
      current := current + [ch];
    }
    if inString || inBytes || depth != 0 {
      return Err(Unbalanced);
    }
    members := members + [current];
    result := CollectMembers(members);
  }

  method CollectMembers(pieces: seq<string>) returns (result: Result<seq<Member>, FieldError>)
    ensures result == Members(pieces)
  {
    var out: seq<Member> := [];
    var i := 0;
    assert pieces[0..] == pieces;
    assert Members(pieces).Ok? ==> [] + Members(pieces).value == Members(pieces).value;
    while i < |pieces|
      invariant 0 <= i <= |pieces|
      invariant Members(pieces) == Prepend(out, Members(pieces[i..]))
    {
      assert pieces[i..][1..] == pieces[i + 1..];
      var m := Trim(pieces[i]);
      i := i + 1;
      if m != "" {
        var kv := SplitOnce(m, '=');
        if kv.None? {
          return Err(NotKeyValue(m));
        }
        ghost var before := out;
        out := out + [(Trim(kv.value.0), Trim(kv.value.1))];
        assert forall rest :: out + rest == before + ([(Trim(kv.value.0), Trim(kv.value.1))] + rest);
      }
    }
    assert out + [] == out;
    return Ok(out);
  }

  function Prepend(head: seq<Member>, tail: Result<seq<Member>, FieldError>): Result<seq<Member>, FieldError> {
    match tail
    case Ok(members) => Ok(head + members)
    case Err(e) => Err(e)
  }

  // ---- Structure of the scan -------------------------------------------------

  lemma {:induction false} ScanConcat(s: Scan, a: string, b: string)
    ensures ScanAll(s, a + b) == ScanAll(ScanAll(s, a), b)
    decreases |a|
  {
    if a == "" {
      assert a + b == b;
    } else {
      assert (a + b)[1..] == a[1..] + b;
      ScanConcat(Step(s, a[0]), a[1..], b);
    }
  }

  /** An escape can only be pending inside a quoted string. */
  lemma {:induction false} EscapedOnlyInString(s: Scan, text: string)
    requires s.escaped ==> s.inString
    ensures ScanAll(s, text).escaped ==> ScanAll(s, text).inString
    decreases |text|
  {
    if text != "" {
      EscapedOnlyInString(Step(s, text[0]), text[1..]);
    }
  }

  /** `s` with earlier members, and with text in front of its first raw member. */
  function Rebase(s: Scan, earlier: seq<string>, lead: string): Scan {
    if s.members == [] then s.(members := earlier, current := lead + s.current)
    else s.(members := earlier + [lead + s.members[0]] + s.members[1..])
  }

  lemma StepRebase(s: Scan, earlier: seq<string>, lead: string, ch: char)
    ensures Step(Rebase(s, earlier, lead), ch) == Rebase(Step(s, ch), earlier, lead)
  {
    assert lead + s.current + [ch] == lead + (s.current + [ch]);
    if s.members != [] {
      assert (s.members + [s.current])[1..] == s.members[1..] + [s.current];
      assert earlier + [lead + s.members[0]] + s.members[1..] + [s.current]
          == earlier + [lead + s.members[0]] + (s.members[1..] + [s.current]);
    } else {
      assert earlier + [lead + s.current] == earlier + [lead + s.current] + [];
    }
  }

  lemma {:induction false} ScanRebase(s: Scan, earlier: seq<string>, lead: string, text: string)
    ensures ScanAll(Rebase(s, earlier, lead), text) == Rebase(ScanAll(s, text), earlier, lead)
    decreases |text|
  {
    if text != "" {
      StepRebase(s, earlier, lead, text[0]);
      ScanRebase(Step(s, text[0]), earlier, lead, text[1..]);
    }
  }

  lemma {:induction false} MembersConcat(a: seq<string>, b: seq<string>)
    requires Members(a).Ok?
    ensures Members(a + b) == Prepend(Members(a).value, Members(b))
    decreases |a|
  {
    if a == [] {
      assert a + b == b;
      assert Members(b).Ok? ==> [] + Members(b).value == Members(b).value;
    } else {
      assert (a + b)[1..] == a[1..] + b;
      MembersConcat(a[1..], b);
      var m := Trim(a[0]);
      if m != "" && Members(b).Ok? {
        var kv := SplitOnce(m, '=').value;
        assert [(Trim(kv.0), Trim(kv.1))] + (Members(a[1..]).value + Members(b).value)
            == Members(a).value + Members(b).value;
      }
    }
  }

  /**
   Splitting is compositional: after a well-formed field, a comma and a blank start a
   fresh field whose result, good or bad, is exactly what it would be on its own.
   */
  lemma ParseAppended(a: string, b: string)
    requires Parse(a).Ok?
    ensures Parse(a + ", " + b) == Prepend(Parse(a).value, Parse(b))
  {
    var sa := ScanAll(START, a);
    EscapedOnlyInString(START, a);
    ScanConcat(START, a + ", ", b);
    ScanConcat(START, a, ", ");
    var renewed := Step(Step(sa, ','), ' ');
    assert ScanAll(sa, ", ") == renewed by {
      assert ", "[1..] == " " && " "[1..] == "";
    }
    assert renewed == Rebase(START, sa.Pieces(), " ");
    ScanRebase(START, sa.Pieces(), " ", b);
    var sb := ScanAll(START, b);
    var both := Rebase(sb, sa.Pieces(), " ");
    var tail := [" " + sb.Pieces()[0]] + sb.Pieces()[1..];
    assert both.Pieces() == sa.Pieces() + tail;
    MembersConcat(sa.Pieces(), tail);
    TrimLeadingBlank(sb.Pieces()[0]);
    assert tail[1..] == sb.Pieces()[1..];
    assert Members(tail) == Members(sb.Pieces());
  }

  /** Concatenation of per-field results, stopping at the first bad field. */
  function ParseEach(fields: seq<string>): Result<seq<Member>, FieldError> {
    if fields == [] then Ok([]) else
      match Parse(fields[0])
      case Err(e) => Err(e)
      case Ok(ms) => Prepend(ms, ParseEach(fields[1..]))
  }

  /**
   Repeated header lines joined by `, ` parse to the members of all of them in order
   (section 4.2 of RFC 8941), whenever every line but the last parses by itself.
   */
  lemma {:induction false} JoinedFieldsParse(fields: seq<string>)
    requires fields != []
    requires forall i :: 0 <= i < |fields| - 1 ==> Parse(fields[i]).Ok?
    ensures Parse(Join(fields, ", ")) == ParseEach(fields)
    decreases |fields|
  {
    if |fields| == 1 {
      assert ParseEach(fields[1..]) == Ok([]);
      assert Parse(fields[0]).Ok? ==> Parse(fields[0]).value + [] == Parse(fields[0]).value;
    } else {
      JoinedFieldsParse(fields[1..]);
      ParseAppended(fields[0], Join(fields[1..], ", "));
      assert fields[0] + ", " + Join(fields[1..], ", ") == Join(fields, ", ");
    }
  }

  // ---- Printing and parsing back ----------------------------------------------

  /** Text that the scanner keeps in one piece and leaves closed. */
  predicate Atomic(text: string) {
    ScanAll(START, text) == START.(current := text)
  }

  predicate Printable(m: Member) {
    '=' !in m.0 && Tight(m.0) && Tight(m.1) && Atomic(m.0 + "=" + m.1)
  }

  function Print(members: seq<Member>): string {
    Join(seq(|members|, i requires 0 <= i < |members| => members[i].0 + "=" + members[i].1), ", ")
  }

  lemma ParseOne(m: Member)
    requires Printable(m)
    ensures Parse(m.0 + "=" + m.1) == Ok([m])
  {
    var text := m.0 + "=" + m.1;
    assert Tight(text) by {
      assert m.0 != "" ==> text[0] == m.0[0];
      assert m.0 == "" ==> text[0] == '=';
      assert m.1 != "" ==> text[|text| - 1] == m.1[|m.1| - 1];
      assert m.1 == "" ==> text[|text| - 1] == '=';
    }
    TrimTight(text);
    TrimTight(m.0);
    TrimTight(m.1);
    SplitOnceAt(m.0, '=', m.1);
    assert START.members + [text] == [text];
    assert [text][1..] == [];
    assert Members([]) == Ok([]);
    assert [(m.0, m.1)] + [] == [m];
  }

  /** Printing members and parsing the text returns exactly those members. */
  lemma {:induction false} ParsePrinted(members: seq<Member>)
    requires forall m :: m in members ==> Printable(m)
    ensures Parse(Print(members)) == Ok(members)
    decreases |members|
  {
    if members == [] {
      assert Print(members) == "";
      assert START.Pieces() == [""] && Trim("") == "" && [""][1..] == [];
    } else {
      var first := members[0].0 + "=" + members[0].1;
      var rest := members[1..];
      ParseOne(members[0]);
      var texts := seq(|members|, i requires 0 <= i < |members| => members[i].0 + "=" + members[i].1);
      if rest == [] {
        assert texts == [first];
        assert members == [members[0]];
      } else {
        ParsePrinted(rest);
        assert texts[1..] == seq(|rest|, i requires 0 <= i < |rest| => rest[i].0 + "=" + rest[i].1);
        ParseAppended(first, Print(rest));
        assert first + ", " + Print(rest) == Print(members);
        assert [members[0]] + rest == members;
      }
    }
  }
}
