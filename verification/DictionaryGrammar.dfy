/**
 What the dictionary scanner accepts, said by a grammar: strings, byte sequences and
 nested lists hide their commas, and a member is what stands between the others.
 */
module DictionaryGrammar {
  import opened Wrappers
  import opened Text
  import opened Dictionary

  /** One mark inside a quoted string. */
  datatype Mark = Letter(c: char) | Escape(c: char)

  datatype Piece =
    | Bare(c: char)
    | Quoted(marks: seq<Mark>)
    | Bytes(text: string)
    | Inner(pieces: seq<Piece>)

  function ShowMark(m: Mark): string {
    match m
    case Letter(c) => [c]
    case Escape(c) => ['\\', c]
  }

  function ShowMarks(marks: seq<Mark>): string {
    if marks == [] then "" else ShowMark(marks[0]) + ShowMarks(marks[1..])
  }

  function Show(p: Piece): string {
    match p
    case Bare(c) => [c]
    case Quoted(marks) => "\"" + ShowMarks(marks) + "\""
    case Bytes(text) => ":" + text + ":"
    case Inner(pieces) => "(" + ShowAll(pieces) + ")"
  }

  function ShowAll(pieces: seq<Piece>): string {
    if pieces == [] then "" else Show(pieces[0]) + ShowAll(pieces[1..])
  }

  predicate IsMark(m: Mark) {
    m.Letter? ==> m.c != '"' && m.c != '\\'
  }

  /** Commas belong inside lists, and a closing parenthesis that closes nothing outside them. */
  predicate IsPiece(p: Piece, nested: bool) {
    match p
    case Bare(c) => c != '"' && c != ':' && c != '(' && c != (if nested then ')' else ',')
    case Quoted(marks) => forall m :: m in marks ==> IsMark(m)
    case Bytes(text) => ':' !in text
    case Inner(pieces) => ArePieces(pieces, true)
  }

  predicate ArePieces(pieces: seq<Piece>, nested: bool) {
    forall p :: p in pieces ==> IsPiece(p, nested)
  }

  /** The scanner stands outside strings and byte sequences. */
  predicate Open(s: Scan) {
    !s.inString && !s.inBytes && !s.escaped
  }

  function Kept(s: Scan, text: string): Scan {
    s.(current := s.current + text)
  }

  lemma ScanOne(s: Scan, c: char)
    ensures ScanAll(s, [c]) == Step(s, c)
  {
    assert [c][1..] == "";
  }

  lemma ScanMark(s: Scan, m: Mark)
    requires s.inString && !s.escaped && IsMark(m)
    ensures ScanAll(s, ShowMark(m)) == Kept(s, ShowMark(m))
  {
    match m
    case Letter(c) => ScanOne(s, c);
    case Escape(c) =>
      ScanConcat(s, ['\\'], [c]);
      ScanOne(s, '\\');
      ScanOne(Step(s, '\\'), c);
      assert ['\\'] + [c] == ['\\', c];
      assert s.current + ['\\'] + [c] == s.current + ['\\', c];
  }

  lemma KeptTwice(s: Scan, a: string, b: string)
    ensures Kept(Kept(s, a), b) == Kept(s, a + b) && Kept(s, "") == s
  {
    assert s.current + a + b == s.current + (a + b) && s.current + "" == s.current;
  }

  lemma {:induction false} ScanMarks(s: Scan, marks: seq<Mark>)
    requires s.inString && !s.escaped && forall m :: m in marks ==> IsMark(m)
    ensures ScanAll(s, ShowMarks(marks)) == Kept(s, ShowMarks(marks))
    decreases |marks|
  {
    if marks == [] {
      KeptTwice(s, "", "");
    } else {
      var m, rest := marks[0], ShowMarks(marks[1..]);
      assert IsMark(m) && forall n :: n in marks[1..] ==> n in marks;
      ScanConcat(s, ShowMark(m), rest);
      ScanMark(s, m);
      ScanMarks(Kept(s, ShowMark(m)), marks[1..]);
      hide ScanAll, ShowMark;
      KeptTwice(s, ShowMark(m), rest);
    }
  }

  lemma {:induction false} ScanBytes(s: Scan, text: string)
    requires s.inBytes && !s.inString && !s.escaped && ':' !in text
    ensures ScanAll(s, text) == Kept(s, text)
    decreases |text|
  {
    if text == "" {
      assert s.current + "" == s.current;
    } else {
      assert text[0] in text && ':' !in text[1..];
      ScanBytes(Step(s, text[0]), text[1..]);
      assert s.current + [text[0]] + text[1..] == s.current + text;
    }
  }

  /** A bracketed text: entered, kept inside and left again. */
  lemma ScanBetween(s: Scan, open: char, text: string, close: char)
    requires ScanAll(Step(s, open), text) == Kept(Step(s, open), text)
    ensures ScanAll(s, [open] + text + [close]) == Step(Kept(Step(s, open), text), close)
  {
    ScanConcat(s, [open] + text, [close]);
    ScanConcat(s, [open], text);
    ScanOne(s, open);
    ScanOne(Kept(Step(s, open), text), close);
  }

  lemma KeptBetween(s: Scan, v: Scan, open: char, text: string, close: char)
    requires v == s.(current := s.current + [open] + text + [close])
    ensures v == Kept(s, [open] + text + [close])
  {
    assert s.current + [open] + text + [close] == s.current + ([open] + text + [close]);
  }

  lemma {:induction false} ScanPiece(s: Scan, p: Piece)
    requires Open(s) && IsPiece(p, s.depth > 0)
    ensures ScanAll(s, Show(p)) == Kept(s, Show(p))
    decreases p, 0
  {
    hide ScanAll, ShowMarks;
    match p
    case Bare(c) => ScanOne(s, c);
    case Quoted(marks) =>
      ScanMarks(Step(s, '"'), marks);
      ScanBetween(s, '"', ShowMarks(marks), '"');
      KeptBetween(s, ScanAll(s, Show(p)), '"', ShowMarks(marks), '"');
    case Bytes(text) =>
      ScanBytes(Step(s, ':'), text);
      ScanBetween(s, ':', text, ':');
      KeptBetween(s, ScanAll(s, Show(p)), ':', text, ':');
    case Inner(pieces) =>
      ScanPieces(Step(s, '('), pieces);
      ScanBetween(s, '(', ShowAll(pieces), ')');
      KeptBetween(s, ScanAll(s, Show(p)), '(', ShowAll(pieces), ')');
  }

  /** Pieces pass the scanner unchanged and uncut, at any depth. */
  lemma {:induction false} ScanPieces(s: Scan, pieces: seq<Piece>)
    requires Open(s) && ArePieces(pieces, s.depth > 0)
    ensures ScanAll(s, ShowAll(pieces)) == Kept(s, ShowAll(pieces))
    decreases pieces, |pieces|
  {
    if pieces == [] {
      assert s.current + "" == s.current;
    } else {
      var p, rest := pieces[0], ShowAll(pieces[1..]);
      assert p in pieces && forall q :: q in pieces[1..] ==> q in pieces;
      ScanPiece(s, p);
      ScanConcat(s, Show(p), rest);
      ScanPieces(Kept(s, Show(p)), pieces[1..]);
      KeptTwice(s, Show(p), rest);
    }
  }

  // ---- Where a header is cut ------------------------------------------------------------------

  function Texts(fields: seq<seq<Piece>>): seq<string> {
    seq(|fields|, i requires 0 <= i < |fields| => ShowAll(fields[i]))
  }

  predicate AreFields(fields: seq<seq<Piece>>) {
    forall f :: f in fields ==> ArePieces(f, false)
  }

  /** A field, a comma, and the rest scanned as if it stood alone. */
  lemma NextField(first: string, rest: string)
    requires ScanAll(START, first) == Kept(START, first)
    ensures ScanAll(START, first + "," + rest) == Rebase(ScanAll(START, rest), [first], "")
  {
    ScanConcat(START, first + ",", rest);
    ScanConcat(START, first, ",");
    ScanOne(Kept(START, first), ',');
    assert START.current + first == first && [] + [first] == [first];
    assert Step(Kept(START, first), ',') == Rebase(START, [first], "");
    hide ScanAll;
    ScanRebase(START, [first], "", rest);
  }

  lemma RebasedPieces(s: Scan, first: string)
    ensures Rebase(s, [first], "").Pieces() == [first] + s.Pieces()
  {
    if s.members == [] {
      assert "" + s.current == s.current;
    } else {
      assert "" + s.members[0] == s.members[0];
      assert [first] + [s.members[0]] + s.members[1..] == [first] + s.members;
    }
  }

  lemma {:induction false} ScanFields(fields: seq<seq<Piece>>)
    requires fields != [] && AreFields(fields)
    ensures var s := ScanAll(START, Join(Texts(fields), ",")); Open(s) && s.depth == 0 && s.Pieces() == Texts(fields)
    decreases |fields|
  {
    var first := ShowAll(fields[0]);
    assert fields[0] in fields && forall f :: f in fields[1..] ==> f in fields;
    ScanPieces(START, fields[0]);
    hide ScanAll, ShowAll;
    assert Kept(START, first).current == first;
    if |fields| == 1 {
      assert Texts(fields) == [first] && Kept(START, first).Pieces() == [first];
    } else {
      var rest := Join(Texts(fields[1..]), ",");
      assert Texts(fields)[1..] == Texts(fields[1..]);
      assert Texts(fields) == [first] + Texts(fields[1..]);
      ScanFields(fields[1..]);
      NextField(first, rest);
      RebasedPieces(ScanAll(START, rest), first);
    }
  }

  /**
   Cut exactly at the outer commas: fields made of plain characters, quoted strings with
   escapes, byte sequences and nested lists, joined by commas, are read back one by one,
   whatever commas, quotes, colons and parentheses they hide.
   */
  lemma FieldsParse(fields: seq<seq<Piece>>)
    requires fields != [] && AreFields(fields)
    ensures Parse(Join(Texts(fields), ",")) == Members(Texts(fields))
  {
    ScanFields(fields);
  }

  /** Lists that are opened and not closed, each with what stands in it. */
  function ShowOpened(lists: seq<seq<Piece>>): string {
    if lists == [] then "" else "(" + ShowAll(lists[0]) + ShowOpened(lists[1..])
  }

  lemma {:induction false} ScanOpened(s: Scan, lists: seq<seq<Piece>>)
    requires Open(s) && forall o :: o in lists ==> ArePieces(o, true)
    ensures var r := ScanAll(s, ShowOpened(lists)); Open(r) && r.depth == s.depth + |lists|
    decreases |lists|
  {
    if lists != [] {
      var here, rest := ShowAll(lists[0]), ShowOpened(lists[1..]);
      assert lists[0] in lists && forall o :: o in lists[1..] ==> o in lists;
      ScanConcat(s, "(" + here, rest);
      ScanConcat(s, "(", here);
      ScanOne(s, '(');
      ScanPieces(Step(s, '('), lists[0]);
      ScanOpened(Kept(Step(s, '('), here), lists[1..]);
    }
  }

  /** What may be left open at the end: nothing more, a string, or a byte sequence. */
  datatype Ending = Nothing | OpenString(marks: seq<Mark>) | OpenBytes(text: string)

  function ShowEnding(e: Ending): string {
    match e
    case Nothing => ""
    case OpenString(marks) => "\"" + ShowMarks(marks)
    case OpenBytes(text) => ":" + text
  }

  predicate IsEnding(e: Ending) {
    match e
    case Nothing => true
    case OpenString(marks) => forall m :: m in marks ==> IsMark(m)
    case OpenBytes(text) => ':' !in text
  }

  lemma ScanEnding(s: Scan, e: Ending)
    requires Open(s) && IsEnding(e)
    ensures var r := ScanAll(s, ShowEnding(e)); r.depth == s.depth && (r.inString || r.inBytes <==> !e.Nothing?)
  {
    match e
    case Nothing =>
    case OpenString(marks) =>
      ScanConcat(s, "\"", ShowMarks(marks));
      ScanOne(s, '"');
      ScanMarks(Step(s, '"'), marks);
    case OpenBytes(text) =>
      ScanConcat(s, ":", text);
      ScanOne(s, ':');
      ScanBytes(Step(s, ':'), text);
  }

  /** Fields followed by lists, a string or a byte sequence left open are refused as unbalanced, and accepted structure is not. */
  lemma UnbalancedExactly(fields: seq<seq<Piece>>, lists: seq<seq<Piece>>, e: Ending)
    requires fields != [] && AreFields(fields) && IsEnding(e) && forall o :: o in lists ==> ArePieces(o, true)
    ensures Parse(Join(Texts(fields), ",") + ShowOpened(lists) + ShowEnding(e)) == Err(Unbalanced)
       <==> lists != [] || !e.Nothing?
  {
    var text := Join(Texts(fields), ",");
    ScanFields(fields);
    ScanConcat(START, text + ShowOpened(lists), ShowEnding(e));
    ScanConcat(START, text, ShowOpened(lists));
    ScanOpened(ScanAll(START, text), lists);
    ScanEnding(ScanAll(START, text + ShowOpened(lists)), e);
    var s := ScanAll(START, text + ShowOpened(lists) + ShowEnding(e));
    NeverUnbalanced(s.Pieces());
  }

  lemma {:induction false} NeverUnbalanced(pieces: seq<string>)
    ensures Members(pieces) != Err(Unbalanced)
    decreases |pieces|
  {
    if pieces != [] {
      NeverUnbalanced(pieces[1..]);
    }
  }

  // ---- What a member is ---------------------------------------------------------------------------

  lemma TrimBlank(s: string)
    requires AllBlank(s)
    ensures Trim(s) == ""
  {
    assert s + "" == s;
    TrimStartBlanks(s, "");
  }

  /** Between blanks stands this text. */
  predicate Stands(text: string, before: string, s: string, after: string) {
    AllBlank(before) && AllBlank(after) && Tight(s) && text == before + (s + after)
  }

  lemma StandsTrimmed(text: string, before: string, s: string, after: string)
    requires Stands(text, before, s, after)
    ensures Trim(text) == s
  {
    if s == "" {
      assert text == before + after && forall c :: c in text ==> c in before || c in after;
      TrimBlank(text);
    } else {
      TrimOnly(before, s, after);
    }
  }

  lemma {:induction false} TrimStartOnce(s: string)
    ensures TrimStart(TrimStart(s)) == TrimStart(s)
    decreases |s|
  {
    if s != "" && IsWhitespace(s[0]) {
      TrimStartOnce(s[1..]);
    }
  }

  lemma Regrouped(x: string, t: string, y: string, after: string)
    ensures (x + (t + y)) + after == x + (t + (y + after))
  {
  }

  lemma TrimEndOnce(s: string)
    ensures Trim(TrimEnd(s)) == Trim(s)
  {
    var after := TrimEndSplits(s);
    var x, y := TrimSplits(TrimEnd(s));
    var t := Trim(TrimEnd(s));
    hide Trim, TrimEnd, Tight;
    Regrouped(x, t, y, after);
    assert forall c :: c in y + after ==> c in y || c in after;
    StandsTrimmed(s, x, t, y + after);
  }

  /** Trimming a text around an equals sign trims its two sides outwards only. */
  lemma TrimAround(a: string, b: string) returns (a': string, b': string)
    ensures Trim(a + "=" + b) == a' + "=" + b' && Trim(a') == Trim(a) && Trim(b') == Trim(b)
    ensures '=' in a' ==> '=' in a
  {
    a', b' := TrimStart(a), TrimEnd(b);
    var before := TrimStartSplits(a);
    var after := TrimEndSplits(b);
    TrimStartOnce(a);
    TrimEndOnce(b);
    hide TrimStart, TrimEnd;
    var mid := a' + "=" + b';
    assert a + "=" + b == before + (mid + after);
    assert mid[|mid| - 1] == if b' == "" then '=' else b'[|b'| - 1];
    TrimOnly(before, mid, after);
  }

  /**
   A member, exactly: blank text between commas is no member; one with an equals sign is
   the key before the first one and the value behind it, both without the blanks around
   them; and any other is refused, named without its blanks, before what follows is read.
   */
  lemma MemberExactly(text: string, rest: seq<string>, before: string, key: string, mid: string,
                      mid': string, value: string, after: string)
    ensures AllBlank(text) ==> Members([text] + rest) == Members(rest)
    ensures '=' !in text && key != "" && Stands(text, before, key, after) ==> Members([text] + rest) == Err(NotKeyValue(key))
    ensures '=' !in key && Stands(before + (key + mid), before, key, mid) && Stands(mid' + (value + after), mid', value, after)
            && text == before + (key + mid) + "=" + (mid' + (value + after)) ==>
              Members([text] + rest) == Prepend([(key, value)], Members(rest))
  {
    assert ([text] + rest)[1..] == rest;
    if AllBlank(text) {
      TrimBlank(text);
    }
    if '=' !in text && Stands(text, before, key, after) {
      StandsTrimmed(text, before, key, after);
      SplitOnceParts(key, '=');
    }
    var a, b := before + (key + mid), mid' + (value + after);
    if '=' !in key && Stands(a, before, key, mid) && Stands(b, mid', value, after) && text == a + "=" + b {
      StandsTrimmed(a, before, key, mid);
      StandsTrimmed(b, mid', value, after);
      var a', b' := TrimAround(a, b);
      assert '=' !in a;
      SplitOnceAt(a', '=', b');
    }
    hide Trim, SplitOnce, Stands;
  }
}
