/** The string operations the parsers use, with the laws the proofs need. */
module Text {
  import opened Wrappers

  /** Unicode White_Space, the class that trimming and word splitting use. */
  predicate IsWhitespace(c: char) {
    var n := c as int;
    9 <= n <= 13 || n == 0x20 || n == 0x85 || n == 0xA0 || n == 0x1680 || 0x2000 <= n <= 0x200A
    || n == 0x2028 || n == 0x2029 || n == 0x202F || n == 0x205F || n == 0x3000
  }

  predicate NoWhitespace(s: string) {
    forall c :: c in s ==> !IsWhitespace(c)
  }

  function TrimStart(s: string): string {
    if s != "" && IsWhitespace(s[0]) then TrimStart(s[1..]) else s
  }

  function TrimEnd(s: string): string {
    if s != "" && IsWhitespace(s[|s| - 1]) then TrimEnd(s[..|s| - 1]) else s
  }

  function Trim(s: string): string {
    TrimEnd(TrimStart(s))
  }

  /** No whitespace at either end. */
  predicate Tight(s: string) {
    s != "" ==> !IsWhitespace(s[0]) && !IsWhitespace(s[|s| - 1])
  }

  /** Position of the first `c`, or the length when there is none. */
  function IndexOf(s: string, c: char): (i: nat)
    ensures i <= |s| && c !in s[..i]
    ensures i < |s| ==> s[i] == c
  {
    if s == "" || s[0] == c then 0 else
      assert s == [s[0]] + s[1..];
      1 + IndexOf(s[1..], c)
  }

  lemma {:induction false} IndexOfAfter(a: string, c: char, b: string)
    requires c !in a
    ensures IndexOf(a + [c] + b, c) == |a|
  {
    var s := a + [c] + b;
    if a == "" {
      assert s[0] == c;
    } else {
      assert a[0] in a && s[0] == a[0] && s[1..] == a[1..] + [c] + b;
      IndexOfAfter(a[1..], c, b);
    }
  }

  lemma {:induction false} IndexOfAbsent(s: string, c: char)
    requires c !in s
    ensures IndexOf(s, c) == |s|
  {
    if s != "" {
      assert s[0] in s;
      IndexOfAbsent(s[1..], c);
    }
  }

  lemma {:induction false} IndexOfSkips(a: string, c: char, b: string)
    requires c !in a
    ensures IndexOf(a + b, c) == |a| + IndexOf(b, c)
  {
    if a == "" {
      assert a + b == b;
    } else {
      assert a[0] in a && (a + b)[0] == a[0] && (a + b)[1..] == a[1..] + b;
      IndexOfSkips(a[1..], c, b);
    }
  }

  function SplitOnce(s: string, c: char): Option<(string, string)> {
    var i := IndexOf(s, c);
    if i == |s| then None else Some((s[..i], s[i + 1..]))
  }

  lemma SplitOnceParts(s: string, c: char)
    ensures c in s <==> SplitOnce(s, c).Some?
    ensures SplitOnce(s, c).Some? ==>
              var (a, b) := SplitOnce(s, c).value; c !in a && s == a + [c] + b
  {
    if c in s {
      var i := IndexOf(s, c);
      assert s == s[..i] + [c] + s[i + 1..];
    }
  }

  lemma SplitOnceAt(a: string, c: char, b: string)
    requires c !in a
    ensures SplitOnce(a + [c] + b, c) == Some((a, b))
  {
    IndexOfAfter(a, c, b);
    assert (a + [c] + b)[..|a|] == a && (a + [c] + b)[|a| + 1..] == b;
  }

  function Split(s: string, c: char): seq<string>
    decreases |s|
  {
    var i := IndexOf(s, c);
    if i == |s| then [s] else [s[..i]] + Split(s[i + 1..], c)
  }

  lemma SplitAt(a: string, c: char, b: string)
    requires c !in a
    ensures Split(a + [c] + b, c) == [a] + Split(b, c)
  {
    IndexOfAfter(a, c, b);
    assert (a + [c] + b)[..|a|] == a && (a + [c] + b)[|a| + 1..] == b;
  }

  /** No part of a cut text contains the character it was cut at. */
  lemma {:induction false} SplitAvoids(s: string, c: char)
    ensures forall p :: p in Split(s, c) ==> c !in p
    decreases |s|
  {
    var i := IndexOf(s, c);
    if i < |s| {
      SplitAvoids(s[i + 1..], c);
    }
  }

  lemma SplitNone(s: string, c: char)
    requires c !in s
    ensures Split(s, c) == [s]
  {
    IndexOfAbsent(s, c);
  }

  /** Length of the leading run without whitespace. */
  function WordEnd(s: string): (i: nat)
    ensures i <= |s| && NoWhitespace(s[..i])
    ensures i < |s| ==> IsWhitespace(s[i])
  {
    if s == "" || IsWhitespace(s[0]) then 0 else
      assert s == [s[0]] + s[1..];
      1 + WordEnd(s[1..])
  }

  lemma {:induction false} WordEndAt(a: string, c: char, b: string)
    requires NoWhitespace(a) && IsWhitespace(c)
    ensures WordEnd(a + [c] + b) == |a|
    ensures WordEnd(a) == |a|
  {
    var s := a + [c] + b;
    if a == "" {
      assert s[0] == c;
    } else {
      assert a[0] in a && s[0] == a[0] && s[1..] == a[1..] + [c] + b;
      WordEndAt(a[1..], c, b);
    }
  }

  lemma TrimStartLength(s: string)
    ensures |TrimStart(s)| <= |s|
    ensures TrimStart(s) != "" ==> !IsWhitespace(TrimStart(s)[0])
  {
  }

  /** Maximal runs without whitespace, in order. */
  function Words(s: string): seq<string>
    decreases |s|
  {
    TrimStartLength(s);
    var t := TrimStart(s);
    if t == "" then [] else
      var i := WordEnd(t);
      [t[..i]] + Words(t[i..])
  }

  lemma {:induction false} WordsAreClean(s: string)
    ensures forall w :: w in Words(s) ==> NoWhitespace(w)
    decreases |s|
  {
    TrimStartLength(s);
    var t := TrimStart(s);
    if t != "" {
      WordsAreClean(t[WordEnd(t)..]);
    }
  }

  function Join(parts: seq<string>, sep: string): string {
    if |parts| == 0 then ""
    else if |parts| == 1 then parts[0]
    else parts[0] + sep + Join(parts[1..], sep)
  }

  lemma LeadingBlankIsSkipped(rest: string)
    ensures Words(" " + rest) == Words(rest)
  {
    var s := " " + rest;
    assert s[1..] == rest;
    assert TrimStart(s) == TrimStart(rest);
  }

  lemma WordsFrom(s: string, end: nat)
    requires s != "" && TrimStart(s) == s && WordEnd(s) == end <= |s|
    ensures Words(s) == [s[..end]] + Words(s[end..])
  {
    hide TrimStart, WordEnd;
  }

  /** A word followed by a blank, or by the end, is the first word. */
  lemma WordsOfHead(head: string, rest: string)
    requires head != "" && NoWhitespace(head) && (rest == "" || rest[0] == ' ')
    ensures Words(head + rest) == [head] + Words(rest)
  {
    var s := head + rest;
    assert head[0] in head && s[0] == head[0];
    assert s[|head|..] == rest && s[..|head|] == head;
    if rest == "" {
      WordEndAt(head, ' ', "");
      assert s == head;
    } else {
      WordEndAt(head, ' ', rest[1..]);
      assert rest == [' '] + rest[1..] && s == head + [' '] + rest[1..];
    }
    hide Words, WordEnd, NoWhitespace;
    assert TrimStart(s) == s;
    WordsFrom(s, |head|);
  }

  lemma {:induction false} WordsOfJoin(parts: seq<string>)
    requires forall p :: p in parts ==> p != "" && NoWhitespace(p)
    ensures Words(Join(parts, " ")) == parts
    decreases |parts|
  {
    hide Words, NoWhitespace;
    if |parts| == 0 {
      NoWords();
    } else {
      var head, tail := parts[0], parts[1..];
      assert head in parts;
      forall p | p in tail
        ensures p in parts
      {
      }
      WordsOfJoin(tail);
      assert parts == [head] + tail;
      if |parts| == 1 {
        assert Join(parts, " ") == head == head + "";
        WordsOfHead(head, "");
        NoWords();
      } else {
        assert Join(parts, " ") == head + (" " + Join(tail, " "));
        WordsOfHead(head, " " + Join(tail, " "));
        LeadingBlankIsSkipped(Join(tail, " "));
      }
    }
  }

  lemma NoWords()
    ensures Words("") == []
  {
  }

  lemma {:induction false} SplitOfJoin(parts: seq<string>, c: char)
    requires parts != [] && forall p :: p in parts ==> c !in p
    ensures Split(Join(parts, [c]), c) == parts
    decreases |parts|
  {
    assert parts[0] in parts;
    if |parts| == 1 {
      SplitNone(parts[0], c);
    } else {
      assert forall p :: p in parts[1..] ==> p in parts;
      SplitOfJoin(parts[1..], c);
      SplitAt(parts[0], c, Join(parts[1..], [c]));
    }
  }

  function StripPrefix(s: string, c: char): Option<string> {
    if s != "" && s[0] == c then Some(s[1..]) else None
  }

  function StripSuffix(s: string, c: char): Option<string> {
    if s != "" && s[|s| - 1] == c then Some(s[..|s| - 1]) else None
  }

  lemma {:induction false} TrimEndKeepsHead(s: string)
    ensures TrimEnd(s) <= s
    ensures TrimEnd(s) != "" ==> !IsWhitespace(TrimEnd(s)[|TrimEnd(s)| - 1])
  {
    if s != "" && IsWhitespace(s[|s| - 1]) {
      TrimEndKeepsHead(s[..|s| - 1]);
    }
  }

  lemma {:induction false} TrimKeeps(s: string, c: char)
    requires c in s && !IsWhitespace(c)
    ensures c in Trim(s)
  {
    TrimStartKeeps(s, c);
    TrimEndKeeps(TrimStart(s), c);
  }

  lemma {:induction false} TrimStartKeeps(s: string, c: char)
    requires c in s && !IsWhitespace(c)
    ensures c in TrimStart(s)
  {
    if IsWhitespace(s[0]) {
      TrimStartKeeps(s[1..], c);
    }
  }

  lemma {:induction false} TrimEndKeeps(s: string, c: char)
    requires c in s && !IsWhitespace(c)
    ensures c in TrimEnd(s)
  {
    if IsWhitespace(s[|s| - 1]) {
      assert s == s[..|s| - 1] + [s[|s| - 1]];
      TrimEndKeeps(s[..|s| - 1], c);
    }
  }

  lemma {:induction false} TrimWithin(s: string)
    ensures forall c :: c in Trim(s) ==> c in s
  {
    TrimStartWithin(s);
    TrimEndKeepsHead(TrimStart(s));
    assert forall c :: c in Trim(s) ==> c in TrimStart(s);
  }

  lemma {:induction false} TrimStartWithin(s: string)
    ensures forall c :: c in TrimStart(s) ==> c in s
  {
    if s != "" && IsWhitespace(s[0]) {
      TrimStartWithin(s[1..]);
    }
  }

  lemma TrimTight(s: string)
    requires Tight(s)
    ensures Trim(s) == s
  {
  }

  lemma TrimLeadingBlank(s: string)
    ensures Trim(" " + s) == Trim(s)
  {
    assert (" " + s)[1..] == s;
  }

  // ---- Exactly what trimming removes ---------------------------------------------------------

  predicate AllBlank(s: string) {
    forall c :: c in s ==> IsWhitespace(c)
  }

  lemma {:induction false} TrimStartSplits(s: string) returns (before: string)
    ensures AllBlank(before) && s == before + TrimStart(s)
    ensures TrimStart(s) != "" ==> !IsWhitespace(TrimStart(s)[0])
  {
    before := "";
    if s != "" && IsWhitespace(s[0]) {
      before := TrimStartSplits(s[1..]);
      before := [s[0]] + before;
      assert s == [s[0]] + s[1..];
    }
  }

  lemma {:induction false} TrimEndSplits(s: string) returns (after: string)
    ensures AllBlank(after) && s == TrimEnd(s) + after
    ensures TrimEnd(s) != "" ==> !IsWhitespace(TrimEnd(s)[|TrimEnd(s)| - 1]) && TrimEnd(s)[0] == s[0]
  {
    after := "";
    if s != "" && IsWhitespace(s[|s| - 1]) {
      var front, last := s[..|s| - 1], s[|s| - 1];
      after := TrimEndSplits(front);
      after := after + [last];
      assert s == front + [last];
    }
  }

  /** Trimming cuts a text into blanks, a part that neither starts nor ends blank, and blanks. */
  lemma TrimSplits(s: string) returns (before: string, after: string)
    ensures AllBlank(before) && AllBlank(after) && Tight(Trim(s)) && s == before + (Trim(s) + after)
  {
    before := TrimStartSplits(s);
    after := TrimEndSplits(TrimStart(s));
  }

  lemma {:induction false} TrimStartBlanks(before: string, s: string)
    requires AllBlank(before) && (s != "" ==> !IsWhitespace(s[0]))
    ensures TrimStart(before + s) == s
  {
    if before == "" {
      assert before + s == s;
    } else {
      assert before[0] in before && forall c :: c in before[1..] ==> c in before;
      assert (before + s)[1..] == before[1..] + s;
      TrimStartBlanks(before[1..], s);
    }
  }

  lemma {:induction false} TrimEndBlanks(s: string, after: string)
    requires AllBlank(after) && (s != "" ==> !IsWhitespace(s[|s| - 1]))
    ensures TrimEnd(s + after) == s
    decreases |after|
  {
    if after == "" {
      assert s + after == s;
    } else {
      var front, last := after[..|after| - 1], after[|after| - 1];
      assert last in after && forall c :: c in front ==> c in after;
      assert (s + after)[..|s + after| - 1] == s + front;
      TrimEndBlanks(s, front);
    }
  }

  /** And there is only one such cut around a text that is not all blank. */
  lemma TrimOnly(before: string, s: string, after: string)
    requires AllBlank(before) && AllBlank(after) && Tight(s) && s != ""
    ensures Trim(before + (s + after)) == s
  {
    TrimStartBlanks(before, s + after);
    TrimEndBlanks(s, after);
  }
}
