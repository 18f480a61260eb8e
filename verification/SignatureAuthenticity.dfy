/**
 The signature base determines the message it was built from, so an accepted
 signature authenticates every covered component.
 */
module SignatureAuthenticity {
  import opened Wrappers
  import opened Text
  import opened MessageSignatures
  import Base64
  import Dictionary
  import SignatureParams
  import SignatureRoundTrip

  predicate OneLine(s: string) {
    '\n' !in s
  }

  /** The base text for these names and values. */
  function BaseText(names: seq<string>, values: seq<string>, params: string): string
    requires |names| == |values|
  {
    if names == [] then LastLine(params) else Line(names[0], values[0]) + BaseText(names[1..], values[1..], params)
  }

  function Header(name: string): string {
    "\"" + name + "\": "
  }

  /** The text up to the first blank is a quoted name and a colon, so a line of the base could start here. */
  predicate HeaderShaped(s: string) {
    match SplitOnce(s, ' ')
    case None => false
    case Some(parts) =>
      var h := parts.0;
      |h| >= 3 && h[0] == '"' && h[|h| - 2..] == "\":" && NoWhitespace(h[1..|h| - 2])
  }

  /** Line breaks in a text after which a line of the base could start. */
  function Breaks(text: string): nat {
    if text == "" then 0
    else (if text[0] == '\n' && HeaderShaped(text[1..]) then 1 else 0) + Breaks(text[1..])
  }

  /** Nothing inside the text can be taken for another line of the base. */
  predicate Plain(text: string) {
    Breaks(text) == 0
  }

  lemma {:induction false} OneLineIsPlain(text: string)
    requires OneLine(text)
    ensures Plain(text)
    decreases |text|
  {
    if text != "" {
      assert text[0] in text;
      OneLineIsPlain(text[1..]);
    }
  }

  lemma HeaderIsShaped(name: string, rest: string)
    requires NoWhitespace(name)
    ensures HeaderShaped(Header(name) + rest)
    ensures SplitOnce(Header(name) + rest, ' ') == Some(("\"" + name + "\":", rest))
    ensures OneLine(Header(name))
  {
    var h := "\"" + name + "\":";
    assert IsWhitespace(' ') && IsWhitespace('\n');
    assert forall c :: c in Header(name) ==> c == '"' || c == ':' || c == ' ' || c in name;
    assert Header(name) + rest == h + [' '] + rest;
    SplitOnceAt(h, ' ', rest);
    assert h[1..|h| - 2] == name && h[|h| - 2..] == "\":";
  }

  /** A name cannot run over a line break. */
  lemma BrokenHeaderIsNotShaped(u: string, rest: string)
    requires ' ' !in u
    ensures !HeaderShaped(u + "\n" + rest)
  {
    var lead := u + "\n";
    IndexOfSkips(lead, ' ', rest);
    var k := |lead| + IndexOf(rest, ' ');
    var h := (lead + rest)[..k];
    assert h[|u|] == '\n' && IsWhitespace('\n');
    hide IndexOf, IsWhitespace;
    if |h| >= 3 && h[0] == '"' && h[|h| - 2..] == "\":" {
      assert h[|h| - 2] == h[|h| - 2..][0] && h[|h| - 1] == h[|h| - 2..][1];
      assert h[1..|h| - 2][|u| - 1] == '\n';
    }
  }

  /** Whether a line could start here is decided before the next line break. */
  lemma ShapedPrefix(u: string, rest: string)
    ensures HeaderShaped(u + "\n" + rest) <==> HeaderShaped(u)
  {
    if ' ' in u {
      SplitOnceParts(u, ' ');
      var (h, t) := SplitOnce(u, ' ').value;
      assert u + "\n" + rest == h + [' '] + (t + "\n" + rest);
      SplitOnceAt(h, ' ', t + "\n" + rest);
    } else {
      IndexOfAbsent(u, ' ');
      BrokenHeaderIsNotShaped(u, rest);
    }
  }

  lemma {:induction false} BreaksJoin(a: string, rest: string)
    ensures Breaks(a + "\n" + rest) == Breaks(a) + (if HeaderShaped(rest) then 1 else 0) + Breaks(rest)
    decreases |a|
  {
    hide HeaderShaped;
    var all := a + "\n" + rest;
    if a == "" {
      assert all[1..] == rest;
    } else {
      assert all[1..] == a[1..] + "\n" + rest;
      ShapedPrefix(a[1..], rest);
      BreaksJoin(a[1..], rest);
    }
  }

  lemma {:induction false} BreaksAfterLine(a: string, rest: string)
    requires OneLine(a)
    ensures Breaks(a + rest) == Breaks(rest)
    decreases |a|
  {
    if a == "" {
      assert a + rest == rest;
    } else {
      assert a[0] in a && (a + rest)[1..] == a[1..] + rest;
      BreaksAfterLine(a[1..], rest);
    }
  }

  lemma LineStartsShaped(name: string, value: string, rest: string)
    requires NoWhitespace(name)
    ensures HeaderShaped(Line(name, value) + rest)
  {
    HeaderIsShaped(name, value + "\n" + rest);
    hide HeaderShaped, NoWhitespace;
    assert Line(name, value) + rest == Header(name) + (value + "\n" + rest);
  }

  lemma LastLineIs(params: string)
    ensures LastLine(params) == Header("@signature-params") + params
  {
  }

  lemma LastLineShaped(params: string)
    ensures HeaderShaped(LastLine(params)) && Breaks(LastLine(params)) == Breaks(params)
  {
    hide *;
    LastLineIs(params);
    ParamsNameIsWord();
    HeaderIsShaped("@signature-params", params);
    BreaksAfterLine(Header("@signature-params"), params);
  }

  lemma BaseStartsLine(names: seq<string>, values: seq<string>, params: string)
    requires |names| == |values| && forall n :: n in names ==> NoWhitespace(n)
    ensures HeaderShaped(BaseText(names, values, params))
  {
    hide HeaderShaped, NoWhitespace, Line, LastLine;
    if names == [] {
      LastLineShaped(params);
    } else {
      assert names[0] in names;
      LineStartsShaped(names[0], values[0], BaseText(names[1..], values[1..], params));
    }
  }

  function SumBreaks(values: seq<string>): nat {
    if values == [] then 0 else Breaks(values[0]) + SumBreaks(values[1..])
  }

  lemma {:induction false} PlainSum(values: seq<string>)
    ensures SumBreaks(values) == 0 <==> forall v :: v in values ==> Plain(v)
  {
    if values != [] {
      assert forall v :: v in values <==> v == values[0] || v in values[1..] by {
        assert values == [values[0]] + values[1..];
      }
      PlainSum(values[1..]);
      assert values[0] in values;
      assert Plain(values[0]) <==> Breaks(values[0]) == 0;
      assert SumBreaks(values) == 0 <==> Plain(values[0]) && SumBreaks(values[1..]) == 0;
    }
  }

  /** However a base is read, its components and the breaks left inside its values add up to the same number. */
  lemma {:induction false} BaseBreaks(names: seq<string>, values: seq<string>, params: string)
    requires |names| == |values| && forall n :: n in names ==> NoWhitespace(n)
    ensures Breaks(BaseText(names, values, params)) == |names| + SumBreaks(values) + Breaks(params)
    decreases |names|
  {
    hide HeaderShaped, Breaks, NoWhitespace, Line, LastLine;
    if names == [] {
      LastLineShaped(params);
    } else {
      assert names[0] in names;
      assert forall n :: n in names[1..] ==> n in names;
      BaseStartsLine(names[1..], values[1..], params);
      BaseBreaks(names[1..], values[1..], params);
      LineBreaks(names[0], values[0], BaseText(names[1..], values[1..], params));
    }
  }

  lemma LineBreaks(name: string, value: string, rest: string)
    requires NoWhitespace(name) && HeaderShaped(rest)
    ensures Breaks(Line(name, value) + rest) == 1 + Breaks(value) + Breaks(rest)
  {
    HeaderIsShaped(name, value);
    hide HeaderShaped, Breaks, NoWhitespace;
    BreaksAfterLine(Header(name), value);
    BreaksJoin(Header(name) + value, rest);
    assert Line(name, value) + rest == Header(name) + value + "\n" + rest;
  }

  lemma ParamsNameIsWord()
    ensures NoWhitespace("@signature-params")
  {
  }

  /** Two plain values followed by lines of the base end at the same place. */
  lemma {:induction false} PlainEndsAlike(v1: string, r1: string, v2: string, r2: string)
    requires Plain(v1) && Plain(v2) && HeaderShaped(r1) && HeaderShaped(r2)
    requires v1 + "\n" + r1 == v2 + "\n" + r2
    ensures v1 == v2 && r1 == r2
    decreases |v1|
  {
    hide HeaderShaped;
    var all1, all2 := v1 + "\n" + r1, v2 + "\n" + r2;
    if v1 == "" {
      assert all1[1..] == r1;
      if v2 != "" {
        assert all2[1..] == v2[1..] + "\n" + r2 && v2[0] == all1[0];
        ShapedPrefix(v2[1..], r2);
      } else {
        assert all2[1..] == r2;
      }
    } else if v2 == "" {
      assert all2[1..] == r2;
      assert all1[1..] == v1[1..] + "\n" + r1 && v1[0] == all2[0];
      ShapedPrefix(v1[1..], r1);
    } else {
      assert all1[1..] == v1[1..] + "\n" + r1 && all2[1..] == v2[1..] + "\n" + r2;
      assert v1[0] == all1[0] == all2[0] == v2[0];
      PlainEndsAlike(v1[1..], r1, v2[1..], r2);
      assert v1 == [v1[0]] + v1[1..] && v2 == [v2[0]] + v2[1..];
    }
  }

  lemma SameFirstLine(n1: string, v1: string, r1: string, n2: string, v2: string, r2: string)
    requires NoWhitespace(n1) && NoWhitespace(n2) && Plain(v1) && Plain(v2) && HeaderShaped(r1) && HeaderShaped(r2)
    requires Line(n1, v1) + r1 == Line(n2, v2) + r2
    ensures n1 == n2 && v1 == v2 && r1 == r2
  {
    hide HeaderShaped, NoWhitespace, Plain;
    assert Line(n1, v1) + r1 == Header(n1) + (v1 + "\n" + r1);
    assert Line(n2, v2) + r2 == Header(n2) + (v2 + "\n" + r2);
    hide Line, Header;
    SameHeader(n1, v1 + "\n" + r1, n2, v2 + "\n" + r2);
    PlainEndsAlike(v1, r1, v2, r2);
  }

  lemma SameHeader(n1: string, rest1: string, n2: string, rest2: string)
    requires NoWhitespace(n1) && NoWhitespace(n2) && Header(n1) + rest1 == Header(n2) + rest2
    ensures n1 == n2 && rest1 == rest2
  {
    hide HeaderShaped, NoWhitespace;
    HeaderIsShaped(n1, rest1);
    HeaderIsShaped(n2, rest2);
    var h1, h2 := "\"" + n1 + "\":", "\"" + n2 + "\":";
    assert h1[1..|h1| - 2] == n1 && h2[1..|h2| - 2] == n2;
  }

  lemma {:induction false} BaseTextInjective(n1: seq<string>, v1: seq<string>, p1: string,
                                             n2: seq<string>, v2: seq<string>, p2: string)
    requires |n1| == |v1| && |n2| == |v2|
    requires forall n :: n in n1 || n in n2 ==> NoWhitespace(n)
    requires forall v :: v in v1 || v in v2 ==> Plain(v)
    requires Plain(p1) && Plain(p2)
    requires BaseText(n1, v1, p1) == BaseText(n2, v2, p2)
    ensures n1 == n2 && v1 == v2 && p1 == p2
    decreases |n1|
  {
    BaseBreaks(n1, v1, p1);
    BaseBreaks(n2, v2, p2);
    PlainSum(v1);
    PlainSum(v2);
    assert |n1| == |n2|;
    hide Line, LastLine, Breaks, Plain, NoWhitespace, HeaderShaped, SumBreaks;
    if n1 == [] {
      SameLastLine(p1, p2);
    } else {
      assert n1[0] in n1 && v1[0] in v1 && n2[0] in n2 && v2[0] in v2;
      assert forall n :: n in n1[1..] || n in n2[1..] ==> n in n1 || n in n2;
      assert forall v :: v in v1[1..] || v in v2[1..] ==> v in v1 || v in v2;
      BaseStartsLine(n1[1..], v1[1..], p1);
      BaseStartsLine(n2[1..], v2[1..], p2);
      SameFirstLine(n1[0], v1[0], BaseText(n1[1..], v1[1..], p1), n2[0], v2[0], BaseText(n2[1..], v2[1..], p2));
      BaseTextInjective(n1[1..], v1[1..], p1, n2[1..], v2[1..], p2);
      assert n1 == [n1[0]] + n1[1..] && n2 == [n2[0]] + n2[1..];
      assert v1 == [v1[0]] + v1[1..] && v2 == [v2[0]] + v2[1..];
    }
  }

  // ---- When a base has a second reading -----------------------------------------------------------
  //
  // Parameters fix the covered list, so a second reading of a base differs in its values only:
  // the headers of the second and later components are separators that may sit elsewhere.

  /** What stands between the values: each later component's header on a new line. */
  function Separators(names: seq<string>): seq<string> {
    seq(|names|, i requires 0 <= i < |names| => "\n" + Header(names[i]))
  }

  function Body(separators: seq<string>, values: seq<string>): string
    requires |values| == |separators| + 1
  {
    if separators == [] then values[0] else values[0] + separators[0] + Body(separators[1..], values[1..])
  }

  /** One line break, at the start. */
  predicate IsSeparator(s: string) {
    s != "" && s[0] == '\n' && '\n' !in s[1..]
  }

  predicate Occurs(part: string, text: string, at: nat) {
    at + |part| <= |text| && text[at..at + |part|] == part
  }

  predicate Contains(text: string, part: string) {
    exists at :: 0 <= at <= |text| && Occurs(part, text, at)
  }

  lemma OccursPrefixed(a: string, part: string, b: string)
    ensures Contains(a + part + b, part)
  {
    assert Occurs(part, a + part + b, |a|);
  }

  /** Two separators in one text start at the same place or do not overlap. */
  lemma SeparatorsApart(text: string, s: string, i: nat, t: string, j: nat)
    requires IsSeparator(s) && IsSeparator(t) && Occurs(s, text, i) && Occurs(t, text, j)
    ensures i == j || i + |s| <= j || j + |t| <= i
  {
    NoBreakInside(text, s, i);
    NoBreakInside(text, t, j);
  }

  lemma NoBreakInside(text: string, s: string, at: nat)
    requires IsSeparator(s) && Occurs(s, text, at)
    ensures text[at] == '\n' && forall x :: at < x < at + |s| ==> text[x] != '\n'
  {
    var part := text[at..at + |s|];
    assert part[0] == text[at];
    forall x | at < x < at + |s|
      ensures text[x] != '\n'
    {
      assert text[x] == part[x - at] == s[1..][x - at - 1];
    }
  }

  lemma OccursBetween(a: string, part: string, b: string)
    ensures Occurs(part, a + part + b, |a|)
  {
  }

  lemma Associates(a: string, b: string, c: string)
    ensures a + b + c == a + (b + c)
  {
  }

  lemma SeparatorsInOrder(text: string, v: string, t: string, tail: string, u: string, s: string, w: string, tail': string)
    requires IsSeparator(s) && IsSeparator(t)
    requires text == v + t + tail && text == u + s + (w + t + tail')
    ensures |u| + |s| <= |v| || |v| + |t| <= |u + s + w|
    ensures text == u + s + w + (t + tail')
  {
    var p := u + s + w;
    Associates(u + s, w, t + tail');
    Associates(w, t, tail');
    Associates(p, t, tail');
    OccursBetween(v, t, tail);
    OccursBetween(u, s, w + t + tail');
    OccursBetween(p, t, tail');
    hide Occurs;
    SeparatorsApart(text, s, |u|, t, |v|);
    SeparatorsApart(text, t, |v|, t, |p|);
  }

  /** Where the late separator's text leaves the next one: inside this value, or late again. */
  lemma LateAgain(s: string, v: string, t: string, tail: string, u: string, w: string, tail': string) returns (u': string)
    requires IsSeparator(s) && IsSeparator(t)
    requires v + t + tail == u + s + (w + t + tail')
    ensures Contains(v, s) || tail == u' + t + tail'
  {
    hide *;
    SeparatorsInOrder(v + t + tail, v, t, tail, u, s, w, tail');
    Associates(v, t, tail);
    var p := u + s + w;
    u' := "";
    if |u| + |s| <= |v| {
      OccursInside(v, t + tail, u, s, w + t + tail');
    } else {
      u' := p[|v + t|..];
      TailSplits(v + t, tail, p, t + tail');
      Associates(u', t, tail');
    }
  }

  lemma OccursInside(v: string, rest: string, u: string, s: string, more: string)
    requires v + rest == u + s + more && |u| + |s| <= |v|
    ensures Contains(v, s)
  {
    assert (v + rest)[..|v|] == v && (u + s + more)[|u|..|u| + |s|] == s;
    assert v[|u|..|u| + |s|] == (v + rest)[|u|..|u| + |s|];
    assert Occurs(s, v, |u|);
  }

  lemma TailSplits(a: string, tail: string, p: string, rest: string)
    requires a + tail == p + rest && |a| <= |p|
    ensures tail == p[|a|..] + rest
  {
    assert (a + tail)[|a|..] == tail;
    assert (p + rest)[|a|..] == p[|a|..] + rest;
  }

  /** Once a separator of the second reading comes late, some value contains its own separator. */
  lemma {:induction false} LateSeparator(s: string, rest: seq<string>, values: seq<string>, u: string, others: seq<string>)
    returns (k: nat)
    requires IsSeparator(s) && (forall t :: t in rest ==> IsSeparator(t))
    requires |values| == |others| == |rest| + 1
    requires Body(rest, values) == u + s + Body(rest, others)
    ensures k < |values| && Contains(values[k], ([s] + rest)[k])
    decreases |rest|
  {
    if rest == [] {
      k := 0;
      OccursPrefixed(u, s, others[0]);
    } else {
      var t := rest[0];
      assert t in rest;
      var u' := LateAgain(s, values[0], t, Body(rest[1..], values[1..]), u, others[0], Body(rest[1..], others[1..]));
      hide Contains, IsSeparator;
      if Contains(values[0], s) {
        k := 0;
      } else {
        assert forall x :: x in rest[1..] ==> x in rest;
        var l := LateSeparator(t, rest[1..], values[1..], u', others[1..]);
        k := l + 1;
        assert ([s] + rest)[k] == rest[l] == ([t] + rest[1..])[l];
      }
    }
  }

  /** The value contains the separator before it, or the one after it. */
  predicate Swallows(separators: seq<string>, values: seq<string>, i: nat)
    requires |values| == |separators| + 1
  {
    && i < |values|
    && ((i > 0 && Contains(values[i], separators[i - 1])) || (i < |separators| && Contains(values[i], separators[i])))
  }

  lemma {:induction false} SecondBodySwallows(separators: seq<string>, values: seq<string>, others: seq<string>)
    returns (i: nat)
    requires |values| == |others| == |separators| + 1 && forall t :: t in separators ==> IsSeparator(t)
    requires values != others && Body(separators, values) == Body(separators, others)
    ensures Swallows(separators, values, i)
    decreases |separators|
  {
    var v, w := values[0], others[0];
    assert |values| == 1 ==> values == [v] && others == [w];
    i := 0;
    if separators != [] {
      var s, rest := separators[0], separators[1..];
      var tail, tail' := Body(rest, values[1..]), Body(rest, others[1..]);
      var text := Body(separators, values);
      assert s in separators && text == v + s + tail && text == w + s + tail';
      assert forall t :: t in rest ==> t in separators;
      assert Occurs(s, text, |v|) && Occurs(s, text, |w|);
      SeparatorsApart(text, s, |v|, s, |w|);
      if |v| == |w| {
        assert v == text[..|v|] == w;
        assert tail == text[|v| + |s|..] == tail';
        assert values == [v] + values[1..] && others == [w] + others[1..];
        var j := SecondBodySwallows(rest, values[1..], others[1..]);
        i := j + 1;
        assert j > 0 ==> separators[i - 1] == rest[j - 1];
      } else if |w| < |v| {
        i := 0;
        assert v == text[..|v|];
        assert Occurs(s, v, |w|);
      } else {
        var u := text[|v| + |s|..|w|];
        assert tail == text[|v| + |s|..];
        assert tail == u + s + tail';
        var k := LateSeparator(s, rest, values[1..], u, others[1..]);
        i := k + 1;
        assert ([s] + rest)[k] == separators[k];
      }
    }
  }

  /** A value that contains a separator next to it can be cut there instead. */
  lemma {:induction false} SwallowedIsAmbiguous(separators: seq<string>, values: seq<string>, i: nat)
    returns (others: seq<string>)
    requires |values| == |separators| + 1 && Swallows(separators, values, i)
    requires forall t :: t in separators ==> IsSeparator(t)
    ensures |others| == |values| && others != values && Body(separators, others) == Body(separators, values)
    decreases i
  {
    var s, rest := separators[0], separators[1..];
    assert s in separators;
    if i == 0 || (i == 1 && Contains(values[1], s)) {
      others := CutElsewhere(separators, values, i);
    } else {
      hide Contains, IsSeparator;
      assert forall t :: t in rest ==> t in separators;
      assert Swallows(rest, values[1..], i - 1);
      var os := SwallowedIsAmbiguous(rest, values[1..], i - 1);
      others := [values[0]] + os;
      assert others[1..] == os && values == [values[0]] + values[1..];
    }
  }

  lemma FiveParts(a: string, b: string, c: string, d: string, e: string)
    ensures a + b + (c + d + e) == (a + b + c) + d + e
  {
  }

  lemma CutElsewhere(separators: seq<string>, values: seq<string>, i: nat) returns (others: seq<string>)
    requires |values| == |separators| + 1 && separators != [] && i <= 1
    requires separators[0] != "" && Contains(values[i], separators[0])
    ensures |others| == |values| && others != values && Body(separators, others) == Body(separators, values)
  {
    var s, v, v1 := separators[0], values[0], values[1];
    var at :| 0 <= at <= |values[i]| && Occurs(s, values[i], at);
    var a, b := values[i][..at], values[i][at + |s|..];
    assert values[i] == a + s + b && |a + b| < |values[i]|;
    hide Occurs, Contains, Body;
    if i == 0 {
      FiveParts(a, s, b, s, v1);
      MoveCut(separators, values, a, b + s + v1);
      others := [a, b + s + v1] + values[2..];
      assert |others[0]| < |values[0]|;
    } else {
      FiveParts(v, s, a, s, b);
      MoveCut(separators, values, v + s + a, b);
      others := [v + s + a, b] + values[2..];
      assert |others[1]| < |values[1]|;
    }
  }

  /** The text after the first value. */
  function Onward(separators: seq<string>, values: seq<string>): string
    requires |values| == |separators|
  {
    if separators == [] then "" else separators[0] + Body(separators[1..], values)
  }

  lemma BodyOnward(separators: seq<string>, first: string, values: seq<string>)
    requires |values| == |separators|
    ensures Body(separators, [first] + values) == first + Onward(separators, values)
  {
    assert ([first] + values)[1..] == values;
    if separators != [] {
      assert first + separators[0] + Body(separators[1..], values) == first + (separators[0] + Body(separators[1..], values));
    } else {
      assert first + "" == first;
    }
  }

  lemma BodyOfTwo(separators: seq<string>, a: string, b: string, values: seq<string>)
    requires |values| + 1 == |separators|
    ensures Body(separators, [a, b] + values) == (a + separators[0] + b) + Onward(separators[1..], values)
  {
    assert [a, b] + values == [a] + ([b] + values);
    BodyOnward(separators, a, [b] + values);
    BodyOnward(separators[1..], b, values);
    Reassociate(a, separators[0], b, Onward(separators[1..], values));
  }

  lemma MoveCut(separators: seq<string>, values: seq<string>, a: string, b: string)
    requires |values| == |separators| + 1 && separators != []
    requires a + separators[0] + b == values[0] + separators[0] + values[1]
    ensures Body(separators, [a, b] + values[2..]) == Body(separators, values)
  {
    assert values == [values[0], values[1]] + values[2..];
    hide Body, Onward;
    BodyOfTwo(separators, a, b, values[2..]);
    BodyOfTwo(separators, values[0], values[1], values[2..]);
  }

  lemma Reassociate(a: string, b: string, c: string, d: string)
    ensures a + (b + (c + d)) == (a + b + c) + d
  {
  }

  lemma {:induction false} BaseIsBody(names: seq<string>, values: seq<string>, params: string)
    requires |names| == |values| && names != []
    ensures BaseText(names, values, params)
         == Header(names[0]) + Body(Separators(names[1..]), values) + ("\n" + LastLine(params))
    decreases |names|
  {
    hide LastLine, Header;
    var rest := names[1..];
    LineParts(names[0], values[0]);
    if |names| == 1 {
      assert rest == [] && values[1..] == [];
      JoinLines(Header(names[0]), values[0], "", "", LastLine(params));
    } else {
      BaseIsBody(rest, values[1..], params);
      assert Separators(rest)[1..] == Separators(rest[1..]);
      JoinLines(Header(names[0]), values[0], Header(rest[0]), Body(Separators(rest[1..]), values[1..]), "\n" + LastLine(params));
    }
  }

  lemma LineParts(name: string, value: string)
    ensures Line(name, value) == Header(name) + value + "\n"
  {
  }

  lemma JoinLines(h: string, v: string, next: string, tail: string, last: string)
    ensures h + v + "\n" + (next + tail + last) == h + (v + ("\n" + next) + tail) + last
    ensures h + v + "\n" + last == h + v + ("\n" + last)
  {
  }

  lemma HeadersSeparate(names: seq<string>)
    requires forall n :: n in names ==> NoWhitespace(n)
    ensures forall t :: t in Separators(names) ==> IsSeparator(t)
  {
    forall i | 0 <= i < |names|
      ensures IsSeparator(Separators(names)[i])
    {
      assert names[i] in names;
      HeaderIsShaped(names[i], "");
      assert Separators(names)[i][1..] == Header(names[i]);
    }
  }

  /** A value contains a line break followed by its own header, unless it is first, or by the next one's, unless it is last. */
  predicate Ambiguous(names: seq<string>, values: seq<string>, i: nat)
    requires |names| == |values|
  {
    && i < |values|
    && ((i > 0 && Contains(values[i], "\n" + Header(names[i])))
        || (i + 1 < |names| && Contains(values[i], "\n" + Header(names[i + 1]))))
  }

  /**
   The exact condition. For one covered list and one parameter string, other values give
   the same base if and only if some value contains a line break followed by its own
   header, unless it is the first, or by the next one's, unless it is the last.
   */
  lemma SecondReadingExactly(names: seq<string>, values: seq<string>, params: string)
    requires |names| == |values| && forall n :: n in names ==> NoWhitespace(n)
    ensures (exists others :: |others| == |names| && others != values
                              && BaseText(names, others, params) == BaseText(names, values, params))
       <==> exists i :: Ambiguous(names, values, i)
  {
    if names != [] {
      var separators := Separators(names[1..]);
      assert forall n :: n in names[1..] ==> n in names;
      HeadersSeparate(names[1..]);
      forall i: nat
        ensures Ambiguous(names, values, i) <==> Swallows(separators, values, i)
      {
      }
      forall others: seq<string> | |others| == |names| {
        SameBaseSameBody(names, values, others, params);
      }
      hide BaseText, Body, Ambiguous, Swallows, Separators;
      if others :| |others| == |names| && others != values && BaseText(names, others, params) == BaseText(names, values, params) {
        var i := SecondBodySwallows(separators, values, others);
      }
      if i :| Ambiguous(names, values, i) {
        var others := SwallowedIsAmbiguous(separators, values, i);
      }
    }
  }

  lemma SameBaseSameBody(names: seq<string>, values: seq<string>, others: seq<string>, params: string)
    requires |names| == |values| == |others| && names != []
    ensures BaseText(names, others, params) == BaseText(names, values, params)
       <==> Body(Separators(names[1..]), others) == Body(Separators(names[1..]), values)
  {
    var separators := Separators(names[1..]);
    BaseIsBody(names, others, params);
    BaseIsBody(names, values, params);
    hide BaseText, Body, Separators, Header, LastLine;
    SameMiddle(Header(names[0]), Body(separators, others), Body(separators, values), "\n" + LastLine(params));
  }

  lemma SameMiddle(a: string, b: string, c: string, d: string)
    ensures a + b + d == a + c + d <==> b == c
  {
    if a + b + d == a + c + d {
      assert |b| == |c|;
      assert (a + b + d)[|a|..|a| + |b|] == b && (a + c + d)[|a|..|a| + |c|] == c;
    }
  }

  lemma SameLastLine(p1: string, p2: string)
    requires LastLine(p1) == LastLine(p2)
    ensures p1 == p2
  {
    var lead := "\"@signature-params\": ";
    assert (lead + p1)[|lead|..] == p1 && (lead + p2)[|lead|..] == p2;
  }

  function Values(components: Components, covered: seq<string>): (r: seq<string>)
    requires forall n :: n in covered ==> n in components
    ensures |r| == |covered| && forall i :: 0 <= i < |covered| ==> covered[i] in covered && r[i] == components[covered[i]]
  {
    seq(|covered|, i requires 0 <= i < |covered| => assert covered[i] in covered; components[covered[i]])
  }

  lemma {:induction false} BaseIsText(components: Components, covered: seq<string>, params: string)
    requires forall n :: n in covered ==> n in components
    ensures SignatureBase(components, covered, params) == Ok(BaseText(covered, Values(components, covered), params))
    decreases |covered|
  {
    if covered != [] {
      assert covered[0] in covered;
      assert forall n :: n in covered[1..] ==> n in covered;
      BaseIsText(components, covered[1..], params);
      assert Values(components, covered)[1..] == Values(components, covered[1..]);
    }
  }

  /** Header field values never contain a line break. */
  predicate OneLineValues(components: Components) {
    forall n :: n in components ==> OneLine(components[n])
  }

  predicate PlainValues(components: Components, covered: seq<string>) {
    forall n :: n in covered && n in components ==> Plain(components[n])
  }

  /**
   The base is injective (section 2.5 of RFC 9421): equal bases of messages with plain
   values come from the same covered names in the same order, the same values and the
   same parameters. Values without line breaks are plain.
   */
  lemma SignatureBaseInjective(c1: Components, cov1: seq<string>, p1: string,
                               c2: Components, cov2: seq<string>, p2: string)
    requires PlainValues(c1, cov1) && PlainValues(c2, cov2) && Plain(p1) && Plain(p2)
    requires forall n :: n in cov1 || n in cov2 ==> NoWhitespace(n)
    requires SignatureBase(c1, cov1, p1).Ok? && SignatureBase(c1, cov1, p1) == SignatureBase(c2, cov2, p2)
    ensures cov1 == cov2 && p1 == p2
    ensures forall n :: n in cov1 ==> n in c1 && n in c2 && c1[n] == c2[n]
  {
    SignatureRoundTrip.BaseExists(c1, cov1, p1);
    SignatureRoundTrip.BaseExists(c2, cov2, p2);
    BaseIsText(c1, cov1, p1);
    BaseIsText(c2, cov2, p2);
    forall v | v in Values(c1, cov1) || v in Values(c2, cov2)
      ensures Plain(v)
    {
      assert v in Values(c1, cov1) ==> exists i :: 0 <= i < |cov1| && cov1[i] in c1 && v == c1[cov1[i]];
      assert v in Values(c2, cov2) ==> exists i :: 0 <= i < |cov2| && cov2[i] in c2 && v == c2[cov2[i]];
    }
    hide Plain;
    BaseTextInjective(cov1, Values(c1, cov1), p1, cov2, Values(c2, cov2), p2);
    forall n | n in cov1
      ensures n in c1 && n in c2 && c1[n] == c2[n]
    {
      var i :| 0 <= i < |cov1| && cov1[i] == n;
      assert Values(c1, cov1)[i] == Values(c2, cov2)[i];
    }
  }

  /** Covered components on which the two messages disagree. */
  predicate Disagree(c1: Components, c2: Components, covered: seq<string>) {
    exists n :: n in covered && n in c1 && n in c2 && c1[n] != c2[n]
  }

  function Assign(names: seq<string>, values: seq<string>): Components
    requires |names| == |values|
  {
    if names == [] then map[] else Assign(names[1..], values[1..])[names[0] := values[0]]
  }

  predicate DistinctNames(names: seq<string>) {
    forall i, j :: 0 <= i < j < |names| ==> names[i] != names[j]
  }

  lemma {:induction false} AssignedValues(names: seq<string>, values: seq<string>)
    requires |names| == |values| && DistinctNames(names)
    ensures forall i :: 0 <= i < |names| ==> names[i] in Assign(names, values) && Assign(names, values)[names[i]] == values[i]
    decreases |names|
  {
    if names != [] {
      AssignedValues(names[1..], values[1..]);
      forall i | 0 < i < |names|
        ensures names[i] in Assign(names, values) && Assign(names, values)[names[i]] == values[i]
      {
        assert names[1..][i - 1] == names[i] && values[1..][i - 1] == values[i];
      }
    }
  }

  /** Another message with the same base, covered list and parameters but other values needs an ambiguous value. */
  lemma SecondMessageIsAmbiguous(components: Components, other: Components, covered: seq<string>, params: string)
    requires SignatureBase(components, covered, params).Ok? && forall n :: n in covered ==> NoWhitespace(n)
    requires SignatureBase(other, covered, params) == SignatureBase(components, covered, params)
    requires Disagree(components, other, covered)
    ensures (forall n :: n in covered ==> n in components)
    ensures exists i :: Ambiguous(covered, Values(components, covered), i)
  {
    SignatureRoundTrip.BaseExists(components, covered, params);
    SignatureRoundTrip.BaseExists(other, covered, params);
    BaseIsText(components, covered, params);
    BaseIsText(other, covered, params);
    var values, others := Values(components, covered), Values(other, covered);
    var n :| n in covered && n in components && n in other && components[n] != other[n];
    var i :| 0 <= i < |covered| && covered[i] == n;
    assert others[i] != values[i];
    hide BaseText, Ambiguous, NoWhitespace, SignatureBase, Values;
    SecondReadingExactly(covered, values, params);
  }

  /** And when no name is covered twice, an ambiguous value makes another message. */
  lemma AmbiguousHasSecondMessage(components: Components, covered: seq<string>, params: string) returns (other: Components)
    requires (forall n :: n in covered ==> n in components) && (forall n :: n in covered ==> NoWhitespace(n))
    requires DistinctNames(covered) && exists i :: Ambiguous(covered, Values(components, covered), i)
    ensures SignatureBase(other, covered, params) == SignatureBase(components, covered, params)
    ensures Disagree(components, other, covered)
  {
    hide NoWhitespace, Ambiguous, SignatureBase, Values, Disagree;
    SecondReadingExactly(covered, Values(components, covered), params);
    var others :| |others| == |covered| && others != Values(components, covered)
                  && BaseText(covered, others, params) == BaseText(covered, Values(components, covered), params);
    other := ReadingIsMessage(components, covered, params, others);
  }

  lemma ReadingIsMessage(components: Components, covered: seq<string>, params: string, others: seq<string>)
    returns (other: Components)
    requires (forall n :: n in covered ==> n in components) && DistinctNames(covered)
    requires |others| == |covered| && others != Values(components, covered)
    requires BaseText(covered, others, params) == BaseText(covered, Values(components, covered), params)
    ensures SignatureBase(other, covered, params) == SignatureBase(components, covered, params)
    ensures Disagree(components, other, covered)
  {
    other := Assign(covered, others);
    AssignedValues(covered, others);
    hide BaseText, Assign, DistinctNames, SignatureBase;
    assert Values(other, covered) == others;
    BaseIsText(components, covered, params);
    BaseIsText(other, covered, params);
    var i :| 0 <= i < |covered| && others[i] != Values(components, covered)[i];
    assert covered[i] in covered && components[covered[i]] != other[covered[i]];
  }

  /**
   The same for whole messages whose covered names are distinct: a message with the same
   covered list and parameters but other values shares this base if and only if some value
   is ambiguous.
   */
  lemma SecondMessageExactly(components: Components, covered: seq<string>, params: string)
    requires (forall n :: n in covered ==> n in components) && (forall n :: n in covered ==> NoWhitespace(n))
    requires DistinctNames(covered)
    ensures (exists other :: SignatureBase(other, covered, params) == SignatureBase(components, covered, params)
                             && Disagree(components, other, covered))
       <==> exists i :: Ambiguous(covered, Values(components, covered), i)
  {
    hide Ambiguous, NoWhitespace, SignatureBase, Values, DistinctNames;
    SignatureRoundTrip.BaseExists(components, covered, params);
    if other :| SignatureBase(other, covered, params) == SignatureBase(components, covered, params) && Disagree(components, other, covered) {
      SecondMessageIsAmbiguous(components, other, covered, params);
    }
    if exists i :: Ambiguous(covered, Values(components, covered), i) {
      var other := AmbiguousHasSecondMessage(components, covered, params);
    }
  }

  /** With a line break inside a value, two different messages share a base under the same parameters. */
  lemma LineBreakBreaksInjectivity(params: string) returns (c1: Components, c2: Components, covered: seq<string>)
    ensures covered == ["a", "b"] && c1 == map["a" := "1\n\"b\": 2", "b" := "3"] && c2 == map["a" := "1", "b" := "2\n\"b\": 3"]
    ensures SignatureBase(c1, covered, params).Ok? && SignatureBase(c1, covered, params) == SignatureBase(c2, covered, params)
    ensures Disagree(c1, c2, covered)
  {
    c1, c2 := map["a" := "1\n\"b\": 2", "b" := "3"], map["a" := "1", "b" := "2\n\"b\": 3"];
    covered := ["a", "b"];
    assert covered[1..] == ["b"] && ["b"][1..] == [];
    var last := LastLine(params);
    assert SignatureBase(c1, ["b"], params) == Ok(Line("b", "3") + last);
    assert SignatureBase(c2, ["b"], params) == Ok(Line("b", "2\n\"b\": 3") + last);
    assert SignatureBase(c1, covered, params) == Ok(Line("a", "1\n\"b\": 2") + (Line("b", "3") + last));
    assert SignatureBase(c2, covered, params) == Ok(Line("a", "1") + (Line("b", "2\n\"b\": 3") + last));
    assert Line("a", "1\n\"b\": 2") + Line("b", "3") == Line("a", "1") + Line("b", "2\n\"b\": 3");
    assert Line("a", "1\n\"b\": 2") + Line("b", "3") + last == Line("a", "1\n\"b\": 2") + (Line("b", "3") + last);
    assert Line("a", "1") + Line("b", "2\n\"b\": 3") + last == Line("a", "1") + (Line("b", "2\n\"b\": 3") + last);
    assert "a" in covered && c1["a"] != c2["a"];
  }

  // ---- Header text stays on one line through parsing ------------------------------------

  predicate Within(text: string, source: string) {
    forall c :: c in text ==> c in source
  }

  lemma {:induction false} ScanWithin(s: Dictionary.Scan, text: string, source: string)
    requires forall p :: p in s.Pieces() ==> Within(p, source)
    requires Within(text, source)
    ensures forall p :: p in Dictionary.ScanAll(s, text).Pieces() ==> Within(p, source)
    decreases |text|
  {
    if text != "" {
      var next := Dictionary.Step(s, text[0]);
      assert text[0] in text;
      assert s.current in s.Pieces();
      forall p | p in next.Pieces()
        ensures Within(p, source)
      {
        assert p in s.Pieces() || p == s.current + [text[0]] || p == "";
      }
      ScanWithin(next, text[1..], source);
    }
  }

  lemma {:induction false} MembersWithin(pieces: seq<string>, source: string)
    requires forall p :: p in pieces ==> Within(p, source)
    requires Dictionary.Members(pieces).Ok?
    ensures forall m :: m in Dictionary.Members(pieces).value ==> Within(m.1, source)
    decreases |pieces|
  {
    if pieces != [] {
      assert pieces[0] in pieces;
      assert forall p :: p in pieces[1..] ==> p in pieces;
      MembersWithin(pieces[1..], source);
      var m := Trim(pieces[0]);
      TrimWithin(pieces[0]);
      if m != "" {
        var kv := SplitOnce(m, '=').value;
        TrimWithin(kv.1);
      }
    }
  }

  lemma ParsedOnOneLine(header: string)
    requires OneLine(header) && Dictionary.Parse(header).Ok?
    ensures forall m :: m in Dictionary.Parse(header).value ==> OneLine(m.1)
  {
    ScanWithin(Dictionary.START, header, header);
    MembersWithin(Dictionary.ScanAll(Dictionary.START, header).Pieces(), header);
  }

  lemma OneLineArePlain(components: Components, covered: seq<string>)
    requires OneLineValues(components)
    ensures PlainValues(components, covered)
  {
    forall n | n in covered && n in components
      ensures Plain(components[n])
    {
      OneLineIsPlain(components[n]);
    }
  }

  // ---- Authenticity -------------------------------------------------------------------------

  /** One message an honest holder of the key has signed. */
  datatype Signed = Signed(components: Components, covered: seq<string>, params: string)

  predicate WellFormed(s: Signed) {
    && OneLineValues(s.components) && OneLine(s.params)
    && (forall n :: n in s.covered ==> NoWhitespace(n))
    && (forall n :: n in s.covered ==> n in s.components)
  }

  /** The signature that the header carries under this label, when it carries one. */
  function Carried(signature: string, name: string): Option<seq<byte>> {
    match Dictionary.Parse(signature)
    case Err(_) => None
    case Ok(members) =>
      match Lookup(members, name)
      case None => None
      case Some(text) => ByteSequence(text)
  }

  /** Whatever the arriving signatures verify under this key was signed by its holder. */
  ghost predicate Genuine<K, P>(scheme: Scheme<K, P>, publicKey: P, signature: string, history: set<Signed>) {
    forall name: string, m: string ::
      Carried(signature, name).Some? && scheme.verify(publicKey, m, Carried(signature, name).value) ==>
        exists s :: s in history && SignatureBase(s.components, s.covered, s.params) == Ok(m)
  }

  /** `s` vouches for every required component of the message, and was made in time. */
  ghost predicate Vouches(s: Signed, components: Components, required: seq<string>, kid: string, now: int) {
    && (forall n :: n in required ==>
          n in s.covered && n in s.components && n in components && components[n] == s.components[n])
    && SignatureParams.Parse(s.params).Ok?
    && SignatureParams.Parse(s.params).value.keyid == kid
    && (var p := SignatureParams.Parse(s.params).value;
        && (p.created.Some? ==> now - 300 <= p.created.value <= now + 300)
        && (p.expires.Some? ==> now <= p.expires.value))
  }

  /**
   Whatever headers and message arrive: if what the carried signatures verify was signed
   by the key's holder, acceptance means the holder signed a message that agrees on every
   required component, named this kid, and is neither stale nor expired.
   */
  lemma AcceptedMeansSigned<K, P>(scheme: Scheme<K, P>, ring: Keyring<P>, components: Components,
                                  signatureInput: string, signature: string, required: seq<string>, now: int,
                                  history: set<Signed>)
    requires OneLineValues(components) && OneLine(signatureInput)
    requires forall s :: s in history ==> WellFormed(s)
    requires Verify(scheme, ring, components, signatureInput, signature, required, now).Ok?
    requires var kid := Verify(scheme, ring, components, signatureInput, signature, required, now).value;
             FindKey(ring, kid).Some? ==> Genuine(scheme, FindKey(ring, kid).value, signature, history)
    ensures var kid := Verify(scheme, ring, components, signatureInput, signature, required, now).value;
            exists s :: s in history && Vouches(s, components, required, kid, now)
  {
    var kid := Verify(scheme, ring, components, signatureInput, signature, required, now).value;
    var inputs := Dictionary.Parse(signatureInput).value;
    var signatures := Dictionary.Parse(signature).value;
    VerifyFromOutcome(scheme, ring, components, inputs, signatures, required, now, 0, None);
    var j :| 0 <= j < |inputs|
          && VerifyAt(scheme, ring, components, inputs, signatures, required, now, j) == Ok(kid);
    ParsedOnOneLine(signatureInput);
    assert inputs[j] in inputs;
    AcceptedOne(scheme, ring, components, inputs[j].1, signature, inputs[j].0, required, now, kid, history);
  }

  /** The verifier's own checks, all passed. */
  ghost predicate PassesVerifier(rawParams: string, required: seq<string>, kid: string, now: int) {
    && SignatureParams.Parse(rawParams).Ok?
    && (var p := SignatureParams.Parse(rawParams).value;
        && p.keyid == kid && (forall n :: n in required ==> n in p.covered)
        && (p.created.Some? ==> now - 300 <= p.created.value <= now + 300)
        && (p.expires.Some? ==> now <= p.expires.value))
  }

  lemma AcceptedChecks<K, P>(scheme: Scheme<K, P>, ring: Keyring<P>, components: Components, rawParams: string,
                             signature: Option<string>, required: seq<string>, now: int, kid: string) returns (base: string)
    requires VerifyOne(scheme, ring, components, rawParams, signature, required, now) == Ok(kid)
    ensures PassesVerifier(rawParams, required, kid, now)
    ensures SignatureBase(components, SignatureParams.Parse(rawParams).value.covered, rawParams) == Ok(base)
    ensures FindKey(ring, kid).Some? && signature.Some? && ByteSequence(signature.value).Some?
    ensures scheme.verify(FindKey(ring, kid).value, base, ByteSequence(signature.value).value)
  {
    hide SignatureParams.Parse, SignatureBase, FindKey, ByteSequence;
    base := SignatureBase(components, SignatureParams.Parse(rawParams).value.covered, rawParams).value;
  }

  lemma SameBaseVouches(components: Components, rawParams: string, s: Signed, base: string, required: seq<string>,
                        kid: string, now: int)
    requires PassesVerifier(rawParams, required, kid, now) && OneLineValues(components) && OneLine(rawParams) && WellFormed(s)
    requires SignatureBase(components, SignatureParams.Parse(rawParams).value.covered, rawParams) == Ok(base)
    requires SignatureBase(s.components, s.covered, s.params) == Ok(base)
    ensures Vouches(s, components, required, kid, now)
  {
    var params := SignatureParams.Parse(rawParams).value;
    SignatureParams.ParsedNamesAreWords(rawParams);
    hide SignatureParams.Parse, SignatureBase, Plain;
    OneLineIsPlain(rawParams);
    OneLineIsPlain(s.params);
    OneLineArePlain(components, params.covered);
    OneLineArePlain(s.components, s.covered);
    SignatureBaseInjective(components, params.covered, rawParams, s.components, s.covered, s.params);
  }

  lemma AcceptedOne<K, P>(scheme: Scheme<K, P>, ring: Keyring<P>, components: Components, rawParams: string,
                          signature: string, name: string, required: seq<string>, now: int, kid: string,
                          history: set<Signed>)
    requires OneLineValues(components) && OneLine(rawParams)
    requires forall s :: s in history ==> WellFormed(s)
    requires Dictionary.Parse(signature).Ok?
    requires VerifyOne(scheme, ring, components, rawParams, Lookup(Dictionary.Parse(signature).value, name), required, now) == Ok(kid)
    requires FindKey(ring, kid).Some? ==> Genuine(scheme, FindKey(ring, kid).value, signature, history)
    ensures exists s :: s in history && Vouches(s, components, required, kid, now)
  {
    var base := AcceptedChecks(scheme, ring, components, rawParams, Lookup(Dictionary.Parse(signature).value, name), required, now, kid);
    assert Carried(signature, name).Some? && scheme.verify(FindKey(ring, kid).value, base, Carried(signature, name).value);
    var s :| s in history && SignatureBase(s.components, s.covered, s.params) == Ok(base);
    hide *;
    SameBaseVouches(components, rawParams, s, base, required, kid, now);
  }

  // ---- A signer's own headers --------------------------------------------------------------------

  /** Each signature this key makes verifies for the text it was made for and for no other. */
  ghost predicate Binding<K, P>(scheme: Scheme<K, P>, key: K) {
    forall m: string, other: string :: scheme.verify(scheme.publicKey(key), other, scheme.sign(key, m)) <==> other == m
  }

  lemma CarriedOne(signature: string, name: string, text: string)
    requires Dictionary.Parse(signature) == Ok([(name, text)])
    ensures Carried(signature, name) == ByteSequence(text)
    ensures forall other: string :: other != name ==> Carried(signature, other).None?
  {
    hide ByteSequence;
    forall other: string
      ensures Lookup([(name, text)], other) == if other == name then Some(text) else None
    {
      assert [(name, text)][1..] == [];
    }
  }

  /** The signature header a signer prints carries its signature, under its label alone. */
  lemma PrintedSignatureCarried(bytes: seq<byte>)
    ensures var printed := SIGNATURE_LABEL + "=" + (":" + Base64.Encode(bytes) + ":");
            && Carried(printed, SIGNATURE_LABEL) == Some(bytes)
            && forall other: string :: other != SIGNATURE_LABEL ==> Carried(printed, other).None?
  {
    var text := ":" + Base64.Encode(bytes) + ":";
    SignatureRoundTrip.ParseSignedBytes(bytes);
    SignatureRoundTrip.NeutralIsLevel(text);
    hide Base64.Encode, Carried, ByteSequence, Dictionary.Parse, SignatureRoundTrip.Neutral, SignatureRoundTrip.Level;
    SignatureRoundTrip.ParseLabelled(text);
    CarriedOne(SIGNATURE_LABEL + "=" + text, SIGNATURE_LABEL, text);
  }

  /** Headers that a signer with such a key printed carry only what it signed. */
  lemma SignedHeadersAreGenuine<K, P>(scheme: Scheme<K, P>, key: K, kid: string, components: Components,
                                      covered: seq<string>, created: int, expires: Option<int>)
    requires Binding(scheme, key) && SignMessage(scheme, key, kid, components, covered, created, expires).Ok?
    ensures var signed := SignMessage(scheme, key, kid, components, covered, created, expires).value;
            var params := SignatureParams.Show(covered, created, kid, expires);
            Genuine(scheme, scheme.publicKey(key), signed.signature, {Signed(components, covered, params)})
  {
    hide Base64.Encode, SignatureParams.Show, SignatureBase, Carried;
    var signed := SignMessage(scheme, key, kid, components, covered, created, expires).value;
    var params := SignatureParams.Show(covered, created, kid, expires);
    var base := SignatureBase(components, covered, params).value;
    PrintedSignatureCarried(scheme.sign(key, base));
    PrintedSignature(signed.signature, Base64.Encode(scheme.sign(key, base)));
    hide SignMessage;
    var s := Signed(components, covered, params);
    assert s in {s} && SignatureBase(s.components, s.covered, s.params) == Ok(base);
  }

  lemma PrintedSignature(printed: string, text: string)
    requires printed == SIGNATURE_LABEL + "=" + ":" + text + ":"
    ensures printed == SIGNATURE_LABEL + "=" + (":" + text + ":")
  {
  }

  /**
   Both directions for one key: what such a signer printed is accepted where it is due, and
   the acceptance is vouched for by the very message that was signed.
   */
  lemma SignedAcceptedAndVouched<K, P>(scheme: Scheme<K, P>, key: K, kid: string, components: Components,
                                       covered: seq<string>, created: int, expires: Option<int>,
                                       ring: Keyring<P>, required: seq<string>, now: int)
    requires Binding(scheme, key) && SignatureRoundTrip.CleanMessage(covered, created, kid, expires)
    requires forall n :: n in covered ==> n in components
    requires FindKey(ring, kid) == Some(scheme.publicKey(key))
    requires SignatureRoundTrip.Verdict(covered, created, kid, expires, required, now).Ok?
    requires OneLineValues(components) && OneLine(SignatureParams.Show(covered, created, kid, expires))
    ensures var signed := SignMessage(scheme, key, kid, components, covered, created, expires);
            && signed.Ok?
            && Verify(scheme, ring, components, signed.value.signatureInput, signed.value.signature, required, now) == Ok(kid)
            && Vouches(Signed(components, covered, SignatureParams.Show(covered, created, kid, expires)),
                       components, required, kid, now)
  {
    var params := SignatureParams.Show(covered, created, kid, expires);
    SignatureRoundTrip.SignThenVerify(scheme, key, kid, components, covered, created, expires, ring, required, now);
    SignedHeadersAreGenuine(scheme, key, kid, components, covered, created, expires);
    var signed := SignMessage(scheme, key, kid, components, covered, created, expires).value;
    var s := Signed(components, covered, params);
    assert WellFormed(s) by {
      assert forall n :: n in covered ==> SignatureParams.CleanName(n);
    }
    assert OneLine(signed.signatureInput) by {
      assert signed.signatureInput == SIGNATURE_LABEL + "=" + params;
    }
    hide SignMessage, Verify, SignatureRoundTrip.Verdict, SignatureParams.Show, Vouches, Genuine, WellFormed, OneLineValues;
    AcceptedMeansSigned(scheme, ring, components, signed.signatureInput, signed.signature, required, now, {s});
  }
}
