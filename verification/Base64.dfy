/** Standard padded base64 (section 4 of RFC 4648), with the strict decoder. */
module Base64 {
  import opened Wrappers

  type byte = n: int | 0 <= n < 256
  type sextet = n: int | 0 <= n < 64

  const PAD := '='

  function Symbol(n: sextet): char {
    if n < 26 then ('A' as int + n) as char
    else if n < 52 then ('a' as int + (n - 26)) as char
    else if n < 62 then ('0' as int + (n - 52)) as char
    else if n == 62 then '+' else '/'
  }

  function Sextet(c: char): Option<sextet> {
    if 'A' <= c <= 'Z' then Some(c as int - 'A' as int)
    else if 'a' <= c <= 'z' then Some(c as int - 'a' as int + 26)
    else if '0' <= c <= '9' then Some(c as int - '0' as int + 52)
    else if c == '+' then Some(62)
    else if c == '/' then Some(63)
    else None
  }

  // Three bytes regroup into four sextets, and back.
  function S0(a: byte): sextet { a / 4 }
  function S1(a: byte, b: byte): sextet { a % 4 * 16 + b / 16 }
  function S2(b: byte, c: byte): sextet { b % 16 * 4 + c / 64 }
  function S3(c: byte): sextet { c % 64 }
  function B0(s: sextet, t: sextet): byte { s * 4 + t / 16 }
  function B1(t: sextet, u: sextet): byte { t % 16 * 16 + u / 4 }
  function B2(u: sextet, v: sextet): byte { u % 4 * 64 + v }

  function Encode(bytes: seq<byte>): string {
    if |bytes| == 0 then ""
    else if |bytes| == 1 then
      [Symbol(S0(bytes[0])), Symbol(S1(bytes[0], 0)), PAD, PAD]
    else if |bytes| == 2 then
      [Symbol(S0(bytes[0])), Symbol(S1(bytes[0], bytes[1])), Symbol(S2(bytes[1], 0)), PAD]
    else
      [Symbol(S0(bytes[0])), Symbol(S1(bytes[0], bytes[1])),
       Symbol(S2(bytes[1], bytes[2])), Symbol(S3(bytes[2]))] + Encode(bytes[3..])
  }

  /** One group: padding is accepted here, and the unused bits must be zero. */
  function DecodeTail(s: string): Option<seq<byte>>
    requires |s| == 4
  {
    var (a, b, c, d) := (Sextet(s[0]), Sextet(s[1]), Sextet(s[2]), Sextet(s[3]));
    if a.None? || b.None? then None
    else if s[2] == PAD && s[3] == PAD then
      if b.value % 16 == 0 then Some([B0(a.value, b.value)]) else None
    else if c.None? then None
    else if s[3] == PAD then
      if c.value % 4 == 0 then Some([B0(a.value, b.value), B1(b.value, c.value)]) else None
    else if d.None? then None
    else Some([B0(a.value, b.value), B1(b.value, c.value), B2(c.value, d.value)])
  }

  function Decode(s: string): Option<seq<byte>>
    decreases |s|
  {
    if s == "" then Some([])
    else if |s| < 4 then None
    else if |s| == 4 then DecodeTail(s)
    else
      match (DecodeTail(s[..4]), Decode(s[4..]))
      case (Some(head), Some(rest)) => if |head| == 3 then Some(head + rest) else None
      case _ => None
  }

  lemma SymbolInverse(n: sextet)
    ensures Sextet(Symbol(n)) == Some(n)
    ensures Symbol(n) != PAD && Symbol(n) != ':'
  {
  }

  lemma SextetInverse(c: char)
    requires Sextet(c).Some?
    ensures Symbol(Sextet(c).value) == c && c != PAD
  {
  }

  lemma {:induction false} EncodeAvoidsColon(bytes: seq<byte>)
    ensures ':' !in Encode(bytes)
    decreases |bytes|
  {
    forall n: sextet
      ensures Symbol(n) != ':'
    {
      SymbolInverse(n);
    }
    if |bytes| >= 3 {
      EncodeAvoidsColon(bytes[3..]);
    }
  }

  lemma RegroupBytes(a: byte, b: byte, c: byte)
    ensures B0(S0(a), S1(a, b)) == a && B1(S1(a, b), S2(b, c)) == b && B2(S2(b, c), S3(c)) == c
    ensures S1(a, 0) % 16 == 0 && S2(b, 0) % 4 == 0
  {
  }

  lemma TailOfSymbols(s: sextet, t: sextet, u: sextet, v: sextet)
    ensures DecodeTail([Symbol(s), Symbol(t), Symbol(u), Symbol(v)]) == Some([B0(s, t), B1(t, u), B2(u, v)])
    ensures u % 4 == 0 ==> DecodeTail([Symbol(s), Symbol(t), Symbol(u), PAD]) == Some([B0(s, t), B1(t, u)])
    ensures t % 16 == 0 ==> DecodeTail([Symbol(s), Symbol(t), PAD, PAD]) == Some([B0(s, t)])
  {
    SymbolInverse(s);
    SymbolInverse(t);
    SymbolInverse(u);
    SymbolInverse(v);
  }

  lemma DecodeShort(bytes: seq<byte>)
    requires 1 <= |bytes| <= 2
    ensures |Encode(bytes)| == 4 && DecodeTail(Encode(bytes)) == Some(bytes)
  {
    hide Symbol, Sextet, S0, S1, S2, S3, B0, B1, B2;
    var b: byte := if |bytes| == 2 then bytes[1] else 0;
    RegroupBytes(bytes[0], b, 0);
    TailOfSymbols(S0(bytes[0]), S1(bytes[0], b), S2(b, 0), 0);
    assert bytes == if |bytes| == 1 then [bytes[0]] else [bytes[0], bytes[1]];
  }

  lemma DecodeFull(a: byte, b: byte, c: byte, rest: seq<byte>)
    ensures var s := Encode([a, b, c] + rest);
            |s| >= 4 && DecodeTail(s[..4]) == Some([a, b, c]) && s[4..] == Encode(rest)
  {
    RegroupBytes(a, b, c);
    TailOfSymbols(S0(a), S1(a, b), S2(b, c), S3(c));
    var bytes := [a, b, c] + rest;
    assert bytes[3..] == rest && bytes[0] == a && bytes[1] == b && bytes[2] == c;
    var group := [Symbol(S0(a)), Symbol(S1(a, b)), Symbol(S2(b, c)), Symbol(S3(c))];
    assert Encode(bytes) == group + Encode(rest);
    assert (group + Encode(rest))[..4] == group;
  }

  /** Decoding undoes encoding for every byte string. */
  lemma {:induction false} DecodeEncode(bytes: seq<byte>)
    ensures Decode(Encode(bytes)) == Some(bytes)
    decreases |bytes|
  {
    hide Symbol, Sextet, S0, S1, S2, S3, DecodeTail;
    if 1 <= |bytes| <= 2 {
      DecodeShort(bytes);
    } else if |bytes| >= 3 {
      var rest := bytes[3..];
      DecodeFull(bytes[0], bytes[1], bytes[2], rest);
      DecodeEncode(rest);
      assert bytes == [bytes[0], bytes[1], bytes[2]] + rest;
      var s := Encode(bytes);
      if |s| == 4 {
        EncodeEmpty(rest);
        assert s[..4] == s && bytes == [bytes[0], bytes[1], bytes[2]];
      }
    }
  }

  lemma EncodeEmpty(bytes: seq<byte>)
    requires Encode(bytes) == ""
    ensures bytes == []
  {
  }

  lemma Regroup(s: sextet, t: sextet, u: sextet, v: sextet)
    ensures S0(B0(s, t)) == s && S1(B0(s, t), B1(t, u)) == t && S2(B1(t, u), B2(u, v)) == u && S3(B2(u, v)) == v
    ensures t % 16 == 0 ==> S1(B0(s, t), 0) == t
    ensures u % 4 == 0 ==> S2(B1(t, u), 0) == u
  {
  }

  lemma DecodeTailCanonical(s: string)
    requires |s| == 4 && DecodeTail(s).Some?
    ensures Encode(DecodeTail(s).value) == s
    ensures 1 <= |DecodeTail(s).value| <= 3
  {
    hide Symbol, Sextet, S0, S1, S2, S3, B0, B1, B2;
    var (a, b, c, d) := (Sextet(s[0]), Sextet(s[1]), Sextet(s[2]), Sextet(s[3]));
    var u: sextet := if c.Some? then c.value else 0;
    var v: sextet := if d.Some? then d.value else 0;
    SextetInverse(s[0]);
    SextetInverse(s[1]);
    if c.Some? {
      SextetInverse(s[2]);
    }
    if d.Some? {
      SextetInverse(s[3]);
    }
    Regroup(a.value, b.value, u, v);
  }

  /** The strict decoder accepts only canonical text: no two spellings of one value. */
  lemma {:induction false} EncodeDecode(s: string)
    requires Decode(s).Some?
    ensures Encode(Decode(s).value) == s
    decreases |s|
  {
    if |s| == 4 {
      DecodeTailCanonical(s);
    } else if |s| > 4 {
      DecodeTailCanonical(s[..4]);
      EncodeDecode(s[4..]);
      var head := DecodeTail(s[..4]).value;
      var rest := Decode(s[4..]).value;
      assert (head + rest)[3..] == rest;
      assert head[3..] == [];
      assert s == s[..4] + s[4..];
    }
  }

  // ---- The standard alphabet -----------------------------------------------------------------

  const UPPER := "ABCDEFGHIJKLM" + "NOPQRSTUVWXYZ"
  const LOWER := "abcdefghijklm" + "nopqrstuvwxyz"
  const REST := "0123456789+/"

  /** Symbols are those of table 1 of RFC 4648, in its order. */
  lemma SymbolsAreStandard(n: sextet)
    ensures |UPPER| == |LOWER| == 26 && |REST| == 12
    ensures Symbol(n) == (UPPER + LOWER + REST)[n]
  {
    if n < 26 {
      UpperCase(n);
    } else if n < 52 {
      LowerCase(n - 26);
    } else {
      DigitsAndSigns(n - 52);
    }
    hide Symbol;
  }

  lemma UpperCase(n: nat)
    requires n < 26
    ensures |UPPER| == 26 && Symbol(n) == UPPER[n]
  {
    assert n in {0, 1, 2, 3, 4, 5, 6, 7, 8, 9, 10, 11, 12} || n in {13, 14, 15, 16, 17, 18, 19, 20, 21, 22, 23, 24, 25};
  }

  lemma LowerCase(n: nat)
    requires n < 26
    ensures |LOWER| == 26 && Symbol(26 + n) == LOWER[n]
  {
    assert n in {0, 1, 2, 3, 4, 5, 6, 7, 8, 9, 10, 11, 12} || n in {13, 14, 15, 16, 17, 18, 19, 20, 21, 22, 23, 24, 25};
  }

  lemma DigitsAndSigns(n: nat)
    requires n < 12
    ensures Symbol(52 + n) == REST[n]
  {
    assert n in {0, 1, 2, 3, 4, 5, 6, 7, 8, 9, 10, 11};
  }

  /** Three bytes and their four sextets are the same 24 bits, most significant first. */
  lemma SameBits(a: byte, b: byte, c: byte)
    ensures S0(a) * 0x40000 + S1(a, b) * 0x1000 + S2(b, c) * 0x40 + S3(c) == a * 0x10000 + b * 0x100 + c
  {
  }

  /** The letters f, fo and foo as section 10 of RFC 4648 encodes them. */
  lemma EncodeSamples(one: seq<byte>, two: seq<byte>, three: seq<byte>)
    requires one == [102] && two == [102, 111] && three == [102, 111, 111]
    ensures Encode(one) == "Zg==" && Encode(two) == "Zm8=" && Encode(three) == "Zm9v"
  {
    SampleSymbols();
    assert S0(102) == 25 && S1(102, 0) == 32 && S1(102, 111) == 38 && S2(111, 0) == 60 && S2(111, 111) == 61 && S3(111) == 47;
    hide Symbol, S0, S1, S2, S3;
    assert one[0] == 102 && two[0] == 102 && two[1] == 111;
    EncodeThree(three);
    assert Encode(two) == ['Z', 'm', '8', PAD];
    assert Encode(one) == ['Z', 'g', PAD, PAD];
  }

  lemma SampleSymbols()
    ensures Symbol(25) == 'Z' && Symbol(32) == 'g' && Symbol(38) == 'm' && Symbol(60) == '8' && Symbol(61) == '9' && Symbol(47) == 'v'
  {
  }

  lemma EncodeThree(three: seq<byte>)
    requires three == [102, 111, 111]
    ensures Encode(three) == "Zm9v"
  {
    SampleSymbols();
    assert S0(102) == 25 && S1(102, 111) == 38 && S2(111, 111) == 61 && S3(111) == 47;
    hide Symbol, S0, S1, S2, S3;
    assert three[0] == 102 && three[1] == 111 && three[2] == 111 && three[3..] == [];
    assert Encode([]) == "";
    assert Encode(three) == ['Z', 'm', '9', 'v'] + Encode(three[3..]);
  }
}
