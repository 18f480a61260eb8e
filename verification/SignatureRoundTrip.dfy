/** What the signer prints, the verifier accepts: exactly when the message is covered and timely. */
module SignatureRoundTrip {
  import opened Wrappers
  import opened Text
  import opened MessageSignatures
  import Base64
  import Decimal
  import Dictionary
  import SignatureParams

  type Scan = Dictionary.Scan

  // ---- The scanner on printed members ---------------------------------------------------

  /** The scanner appends `text` and is otherwise unmoved. */
  predicate Keeps(s: Scan, text: string) {
    Dictionary.ScanAll(s, text) == s.(current := s.current + text)
  }

  /** Outside strings and byte sequences. */
  predicate Outside(s: Scan) {
    !s.inString && !s.inBytes && !s.escaped
  }

  /** Text that every scan in an outside position keeps whole. */
  ghost predicate Neutral(text: string) {
    forall s: Scan :: Outside(s) ==> Keeps(s, text)
  }

  predicate QuietChar(s: Scan, c: char) {
    if s.inString then c != '"' && c != '\\'
    else if s.inBytes then c != ':'
    else c != '"' && c != ':' && c != '(' && c != ')' && c != ','
  }

  lemma {:induction false} QuietText(s: Scan, text: string)
    requires !s.escaped && forall c :: c in text ==> QuietChar(s, c)
    requires !(s.inString && s.inBytes)
    ensures Keeps(s, text)
    decreases |text|
  {
    if text == "" {
      assert s.current + "" == s.current;
    } else {
      assert text[0] in text;
      var next := s.(current := s.current + [text[0]]);
      assert Dictionary.Step(s, text[0]) == next;
      assert forall c :: c in text[1..] ==> c in text;
      QuietText(next, text[1..]);
      assert s.current + [text[0]] + text[1..] == s.current + text;
    }
  }

  lemma NeutralText(text: string)
    requires forall c :: c in text ==> c != '"' && c != ':' && c != '(' && c != ')' && c != ','
    ensures Neutral(text)
  {
    forall s: Scan | Outside(s)
      ensures Keeps(s, text)
    {
      QuietText(s, text);
    }
  }

  lemma NeutralConcat(a: string, b: string)
    requires Neutral(a) && Neutral(b)
    ensures Neutral(a + b)
  {
    forall s: Scan | Outside(s)
      ensures Keeps(s, a + b)
    {
      Dictionary.ScanConcat(s, a, b);
      assert Keeps(s, a) && Keeps(s.(current := s.current + a), b);
      assert s.current + a + b == s.current + (a + b);
    }
  }

  lemma ScanThree(s: Scan, a: char, text: string, b: char)
    ensures Dictionary.ScanAll(s, [a] + text + [b])
         == Dictionary.Step(Dictionary.ScanAll(Dictionary.Step(s, a), text), b)
  {
    Dictionary.ScanConcat(s, [a] + text, [b]);
    Dictionary.ScanConcat(s, [a], text);
    assert forall x: Scan, c: char :: Dictionary.ScanAll(x, [c]) == Dictionary.Step(x, c) by {
      forall x: Scan, c: char
        ensures Dictionary.ScanAll(x, [c]) == Dictionary.Step(x, c)
      {
        assert [c][1..] == "";
      }
    }
  }

  lemma NeutralQuoted(text: string)
    requires '"' !in text && '\\' !in text
    ensures Neutral(SignatureParams.Quote(text))
  {
    forall s: Scan | Outside(s)
      ensures Keeps(s, SignatureParams.Quote(text))
    {
      ScanThree(s, '"', text, '"');
      QuietText(Dictionary.Step(s, '"'), text);
      assert ['"'] + text + ['"'] == SignatureParams.Quote(text);
      assert s.current + ['"'] + text + ['"'] == s.current + (['"'] + text + ['"']);
    }
  }

  lemma NeutralBytes(text: string)
    requires ':' !in text
    ensures Neutral(":" + text + ":")
  {
    forall s: Scan | Outside(s)
      ensures Keeps(s, ":" + text + ":")
    {
      ScanThree(s, ':', text, ':');
      QuietText(Dictionary.Step(s, ':'), text);
      assert s.current + [':'] + text + [':'] == s.current + ([':'] + text + [':']);
    }
  }

  lemma NeutralParens(text: string)
    requires Neutral(text)
    ensures Neutral("(" + text + ")")
  {
    forall s: Scan | Outside(s)
      ensures Keeps(s, "(" + text + ")")
    {
      ScanThree(s, '(', text, ')');
      assert Keeps(Dictionary.Step(s, '('), text);
      assert s.current + ['('] + text + [')'] == s.current + (['('] + text + [')']);
    }
  }

  lemma {:induction false} NeutralNames(names: seq<string>)
    requires forall n :: n in names ==> '"' !in n && '\\' !in n
    ensures Neutral(Join(SignatureParams.Quoted(names), " "))
    decreases |names|
  {
    var quoted := SignatureParams.Quoted(names);
    if names == [] {
      NeutralText("");
    } else {
      assert names[0] in names;
      NeutralQuoted(names[0]);
      if |names| > 1 {
        assert forall n :: n in names[1..] ==> n in names;
        NeutralNames(names[1..]);
        assert quoted[1..] == SignatureParams.Quoted(names[1..]);
        NeutralText(" ");
        NeutralConcat(quoted[0], " ");
        NeutralConcat(quoted[0] + " ", Join(quoted[1..], " "));
      }
    }
  }

  lemma NeutralNumber(lead: string, n: int)
    requires forall c :: c in lead ==> c != '"' && c != ':' && c != '(' && c != ')' && c != ','
    ensures Neutral(lead + Decimal.ShowInt(n))
  {
    SignatureParams.ShowIntIsPlain(n);
    NeutralText(lead + Decimal.ShowInt(n));
  }

  // ---- Text outside any inner list ------------------------------------------------------

  /** Text that a scan outside strings, byte sequences and inner lists keeps whole. */
  ghost predicate Level(text: string) {
    forall s: Scan :: Outside(s) && s.depth == 0 ==> Keeps(s, text)
  }

  lemma LevelConcat(a: string, b: string)
    requires Level(a) && Level(b)
    ensures Level(a + b)
  {
    forall s: Scan | Outside(s) && s.depth == 0
      ensures Keeps(s, a + b)
    {
      assert Keeps(s, a) && Keeps(s.(current := s.current + a), b);
      KeepsBoth(s, a, b);
    }
  }

  lemma KeepsBoth(s: Scan, a: string, b: string)
    requires Keeps(s, a) && Keeps(s.(current := s.current + a), b)
    ensures Keeps(s, a + b)
  {
    Dictionary.ScanConcat(s, a, b);
    assert s.current + a + b == s.current + (a + b);
  }

  const IN_STRING := Dictionary.START.(inString := true)

  /** Scanned as the inside of a quoted string, the kid neither ends the string nor leaves anything open. */
  predicate Quotable(kid: string) {
    Dictionary.ScanAll(IN_STRING, kid) == IN_STRING.(current := kid)
  }

  /** The kids that survive printing and parsing. */
  predicate KidRoundTrips(kid: string) {
    SignatureParams.PlainKid(kid) && Quotable(kid)
  }

  /** Kids without quotes, backslashes and semicolons do. */
  lemma OrdinaryKidRoundTrips(kid: string)
    requires kid != "" && '"' !in kid && '\\' !in kid && ';' !in kid
    ensures KidRoundTrips(kid)
  {
    QuietText(IN_STRING, kid);
    assert "" + kid == kid;
  }

  /** A string may be scanned from any level position as from the beginning. */
  lemma ScanString(s: Scan, kid: string)
    requires Outside(s) && s.depth == 0
    ensures Dictionary.ScanAll(Dictionary.Step(s, '"'), kid)
         == Dictionary.Rebase(Dictionary.ScanAll(IN_STRING, kid), s.members, s.current + "\"")
  {
    assert Dictionary.Step(s, '"') == Dictionary.Rebase(IN_STRING, s.members, s.current + "\"");
    Dictionary.ScanRebase(IN_STRING, s.members, s.current + "\"", kid);
  }

  lemma LevelQuoted(kid: string)
    requires Quotable(kid)
    ensures Level(SignatureParams.Quote(kid))
  {
    forall s: Scan | Outside(s) && s.depth == 0
      ensures Keeps(s, SignatureParams.Quote(kid))
    {
      ScanThree(s, '"', kid, '"');
      ScanString(s, kid);
      assert ['"'] + kid + ['"'] == SignatureParams.Quote(kid);
      assert s.current + "\"" + kid + ['"'] == s.current + (['"'] + kid + ['"']);
    }
  }

  function CreatedAndKeyid(created: int): string {
    ";" + SignatureParams.CreatedText(created) + ";keyid="
  }

  function ExpiresTail(expires: Option<int>): string {
    if expires.Some? then ";" + SignatureParams.ExpiresText(expires.value) else ""
  }

  lemma TailParts(created: int, kid: string, expires: Option<int>)
    ensures SignatureParams.ShowTail(created, kid, expires)
         == CreatedAndKeyid(created) + SignatureParams.Quote(kid) + ExpiresTail(expires)
  {
    assert SignatureParams.KeyidText(kid) == "keyid=" + SignatureParams.Quote(kid);
  }

  lemma NeutralCreated(created: int)
    ensures Neutral(CreatedAndKeyid(created))
  {
    NeutralNumber(";created=", created);
    assert ";" + SignatureParams.CreatedText(created) == ";created=" + Decimal.ShowInt(created);
    NeutralText(";keyid=");
    NeutralConcat(";" + SignatureParams.CreatedText(created), ";keyid=");
  }

  lemma ExpiresIsQuiet(expires: Option<int>)
    ensures Unremarkable(ExpiresTail(expires))
  {
    if expires.Some? {
      SignatureParams.ShowIntIsPlain(expires.value);
      assert ExpiresTail(expires) == ";expires=" + Decimal.ShowInt(expires.value);
      assert Unremarkable(";expires=");
      hide ExpiresTail, Decimal.ShowInt;
      UnremarkableConcat(";expires=", Decimal.ShowInt(expires.value));
    }
  }

  lemma UnremarkableConcat(a: string, b: string)
    requires Unremarkable(a) && Unremarkable(b)
    ensures Unremarkable(a + b)
  {
  }

  lemma LevelTail(created: int, kid: string, expires: Option<int>)
    requires Quotable(kid)
    ensures Level(SignatureParams.ShowTail(created, kid, expires))
  {
    hide SignatureParams.Quote, CreatedAndKeyid, ExpiresTail;
    NeutralCreated(created);
    LevelQuoted(kid);
    ExpiresIsQuiet(expires);
    NeutralText(ExpiresTail(expires));
    NeutralIsLevel(CreatedAndKeyid(created));
    NeutralIsLevel(ExpiresTail(expires));
    TailParts(created, kid, expires);
    hide Level, Neutral;
    LevelConcat(CreatedAndKeyid(created), SignatureParams.Quote(kid));
    LevelConcat(CreatedAndKeyid(created) + SignatureParams.Quote(kid), ExpiresTail(expires));
  }

  lemma NeutralIsLevel(text: string)
    requires Neutral(text)
    ensures Level(text)
  {
  }

  lemma LevelFromStart(text: string)
    requires Level(text)
    ensures Keeps(Dictionary.START, text)
  {
    assert Outside(Dictionary.START);
  }

  lemma LabelIsLevel()
    ensures Level(SIGNATURE_LABEL + "=")
    ensures '=' !in SIGNATURE_LABEL && Tight(SIGNATURE_LABEL)
  {
    NeutralText(SIGNATURE_LABEL + "=");
    NeutralIsLevel(SIGNATURE_LABEL + "=");
  }

  lemma ParseLabelled(value: string)
    requires Level(value) && Tight(value)
    ensures Dictionary.Parse(SIGNATURE_LABEL + "=" + value) == Ok([(SIGNATURE_LABEL, value)])
  {
    hide Level, Dictionary.Parse, Tight;
    LabelIsLevel();
    LevelConcat(SIGNATURE_LABEL + "=", value);
    LevelFromStart(SIGNATURE_LABEL + "=" + value);
    assert Dictionary.Atomic(SIGNATURE_LABEL + "=" + value) by {
      hide Dictionary.ScanAll;
      assert "" + (SIGNATURE_LABEL + "=" + value) == SIGNATURE_LABEL + "=" + value;
    }
    hide Dictionary.ScanAll, Dictionary.Atomic;
    Dictionary.ParseOne((SIGNATURE_LABEL, value));
  }

  predicate CleanMessage(covered: seq<string>, created: int, kid: string, expires: Option<int>) {
    && (forall n :: n in covered ==> SignatureParams.CleanName(n))
    && KidRoundTrips(kid)
    && Decimal.I64_MIN <= created <= Decimal.I64_MAX
    && (expires.Some? ==> Decimal.I64_MIN <= expires.value <= Decimal.I64_MAX)
  }

  lemma ParseSignedInput(covered: seq<string>, created: int, kid: string, expires: Option<int>)
    requires CleanMessage(covered, created, kid, expires)
    ensures var shown := SignatureParams.Show(covered, created, kid, expires);
            Dictionary.Parse(SIGNATURE_LABEL + "=" + shown) == Ok([(SIGNATURE_LABEL, shown)])
  {
    hide Neutral, SignatureParams.ShowTail;
    NeutralNames(covered);
    NeutralParens(Join(SignatureParams.Quoted(covered), " "));
    NeutralIsLevel(SignatureParams.ShowList(covered));
    LevelTail(created, kid, expires);
    hide Level;
    LevelConcat(SignatureParams.ShowList(covered), SignatureParams.ShowTail(created, kid, expires));
    SignatureParams.ShowIsTight(covered, created, kid, expires);
    ParseLabelled(SignatureParams.Show(covered, created, kid, expires));
  }

  lemma ParseSignedBytes(bytes: seq<byte>)
    ensures var text := ":" + Base64.Encode(bytes) + ":";
            Neutral(text) && Tight(text) && ByteSequence(text) == Some(bytes)
  {
    var inner := Base64.Encode(bytes);
    Base64.EncodeAvoidsColon(bytes);
    NeutralBytes(inner);
    var text := ":" + inner + ":";
    TrimTight(text);
    assert text[1..] == inner + [':'] + "";
    SplitOnceAt(inner, ':', "");
    Base64.DecodeEncode(bytes);
  }

  // ---- Exactly which kids survive -------------------------------------------------------

  lemma {:induction false} NeverBoth(s: Scan, text: string)
    requires !(s.inString && s.inBytes)
    ensures !(Dictionary.ScanAll(s, text).inString && Dictionary.ScanAll(s, text).inBytes)
    decreases |text|
  {
    if text != "" {
      NeverBoth(Dictionary.Step(s, text[0]), text[1..]);
    }
  }

  /** A scan that cuts nothing off keeps every character. */
  lemma {:induction false} UncutKeepsText(s: Scan, text: string)
    ensures s.members <= Dictionary.ScanAll(s, text).members
    ensures Dictionary.ScanAll(s, text).members == s.members ==> Dictionary.ScanAll(s, text).current == s.current + text
    decreases |text|
  {
    if text != "" {
      var next := Dictionary.Step(s, text[0]);
      UncutKeepsText(next, text[1..]);
      if next.members == s.members {
        assert s.current + [text[0]] + text[1..] == s.current + text;
      }
    }
  }

  lemma {:induction false} MembersOfLast(pieces: seq<string>)
    requires pieces != [] && Trim(pieces[|pieces| - 1]) != "" && Dictionary.Members(pieces).Ok?
    ensures Dictionary.Members(pieces).value != []
    decreases |pieces|
  {
    if |pieces| > 1 {
      MembersOfLast(pieces[1..]);
    }
  }

  /** Two pieces with something in them make at least two members. */
  lemma TwoPiecesTwoMembers(pieces: seq<string>)
    requires |pieces| >= 2 && Trim(pieces[0]) != "" && Trim(pieces[|pieces| - 1]) != "" && Dictionary.Members(pieces).Ok?
    ensures |Dictionary.Members(pieces).value| >= 2
  {
    MembersOfLast(pieces[1..]);
  }

  predicate Unremarkable(tail: string) {
    forall c :: c in tail ==> c != '"' && c != '\\' && c != ':' && c != '(' && c != ')' && c != ','
  }

  lemma ScanQuoted(s: Scan, kid: string)
    requires Outside(s) && s.depth == 0
    ensures Dictionary.ScanAll(s, SignatureParams.Quote(kid))
         == Dictionary.Step(Dictionary.Rebase(Dictionary.ScanAll(IN_STRING, kid), s.members, s.current + "\""), '"')
  {
    ScanThree(s, '"', kid, '"');
    ScanString(s, kid);
    assert ['"'] + kid + ['"'] == SignatureParams.Quote(kid);
  }

  lemma StartsAfter(lead: string)
    requires Level(lead)
    ensures var s := Dictionary.ScanAll(Dictionary.START, lead);
            s == Dictionary.START.(current := lead) && Outside(s) && s.depth == 0
  {
    hide Level, Dictionary.ScanAll;
    assert "" + lead == lead;
    LevelFromStart(lead);
  }

  lemma KidScan(kid: string)
    ensures var k := Dictionary.ScanAll(IN_STRING, kid); !(k.inString && k.inBytes) && (k.escaped ==> k.inString)
  {
    NeverBoth(IN_STRING, kid);
    Dictionary.EscapedOnlyInString(IN_STRING, kid);
  }

  /** The scan of a printed member, in terms of the scan of its kid. */
  lemma ScanShown(lead: string, kid: string, tail: string)
    requires Level(lead) && Unremarkable(tail)
    ensures var k := Dictionary.ScanAll(IN_STRING, kid);
            var quoted := Dictionary.Step(Dictionary.Rebase(k, [], lead + "\""), '"');
            && Dictionary.ScanAll(Dictionary.START, lead + SignatureParams.Quote(kid) + tail)
               == quoted.(current := quoted.current + tail)
            && !(k.inString && k.inBytes) && (k.escaped ==> k.inString)
  {
    StartsAfter(lead);
    ScanQuoted(Dictionary.ScanAll(Dictionary.START, lead), kid);
    KidScan(kid);
    hide *;
    Dictionary.ScanConcat(Dictionary.START, lead + SignatureParams.Quote(kid), tail);
    Dictionary.ScanConcat(Dictionary.START, lead, SignatureParams.Quote(kid));
    QuietText(Dictionary.ScanAll(Dictionary.START, lead + SignatureParams.Quote(kid)), tail);
  }

  /** The closing quote closes the scan only if it really closes a string. */
  lemma QuoteCloses(s: Scan)
    requires !(s.inString && s.inBytes) && (s.escaped ==> s.inString) && Dictionary.Step(s, '"').Closed()
    ensures s.inString && !s.inBytes && s.depth == 0 && !s.escaped
    ensures Dictionary.Step(s, '"') == s.(inString := false, current := s.current + ['"'])
  {
  }

  /** Headers read back as one member: the kid's own characters did not disturb the scan. */
  lemma OneMemberMeansQuotable(lead: string, kid: string, tail: string)
    requires Level(lead) && Unremarkable(tail)
    requires lead != "" && !IsWhitespace(lead[0])
    requires var parsed := Dictionary.Parse(lead + SignatureParams.Quote(kid) + tail); parsed.Ok? && |parsed.value| == 1
    ensures Quotable(kid)
  {
    ScanShown(lead, kid, tail);
    UncutKeepsText(IN_STRING, kid);
    hide Level, Unremarkable, Dictionary.ScanAll, Dictionary.Members, SignatureParams.Quote, IsWhitespace;
    var k := Dictionary.ScanAll(IN_STRING, kid);
    QuoteCloses(Dictionary.Rebase(k, [], lead + "\""));
    hide Dictionary.Step;
    assert k == IN_STRING.(members := k.members, current := k.current);
    if k.members != [] {
      var pieces := Dictionary.ScanAll(Dictionary.START, lead + SignatureParams.Quote(kid) + tail).Pieces();
      CutKidMakesTwoPieces(lead, k, tail, pieces);
      TwoPiecesTwoMembers(pieces);
    }
  }

  lemma CutKidMakesTwoPieces(lead: string, k: Scan, tail: string, pieces: seq<string>)
    requires lead != "" && !IsWhitespace(lead[0]) && k.members != []
    requires var s := Dictionary.Rebase(k, [], lead + "\""); pieces == s.members + [s.current + ['"'] + tail]
    ensures |pieces| >= 2 && Trim(pieces[0]) != "" && Trim(pieces[|pieces| - 1]) != ""
  {
    assert pieces[0] == lead + "\"" + k.members[0];
    assert pieces[0][0] == lead[0];
    TrimKeeps(pieces[0], lead[0]);
    assert pieces[|pieces| - 1] == k.current + ['"'] + tail;
    assert pieces[|pieces| - 1][|k.current|] == '"';
    TrimKeeps(pieces[|pieces| - 1], '"');
  }

  /**
   Exactly which kids survive. The printed headers read back as one member with the fields
   that were signed if and only if the kid is not empty, has no semicolon, and scans as
   the inside of one quoted string.
   */
  lemma KidSurvivesExactly(covered: seq<string>, created: int, kid: string, expires: Option<int>)
    requires forall n :: n in covered ==> SignatureParams.CleanName(n)
    requires Decimal.I64_MIN <= created <= Decimal.I64_MAX
    requires expires.Some? ==> Decimal.I64_MIN <= expires.value <= Decimal.I64_MAX
    ensures var shown := SignatureParams.Show(covered, created, kid, expires);
            (&& Dictionary.Parse(SIGNATURE_LABEL + "=" + shown) == Ok([(SIGNATURE_LABEL, shown)])
             && SignatureParams.Parse(shown) == Ok(SignatureParams.Params(covered, Some(created), expires, kid, None)))
            <==> KidRoundTrips(kid)
  {
    var shown := SignatureParams.Show(covered, created, kid, expires);
    if KidRoundTrips(kid) {
      ParseSignedInput(covered, created, kid, expires);
      SignatureParams.ParseShown(covered, created, kid, expires);
    } else if Dictionary.Parse(SIGNATURE_LABEL + "=" + shown) == Ok([(SIGNATURE_LABEL, shown)])
              && SignatureParams.Parse(shown) == Ok(SignatureParams.Params(covered, Some(created), expires, kid, None)) {
      SignatureParams.ParsedKidIsPlain(shown);
      ShownIsQuotable(covered, created, kid, expires);
    }
  }

  /** What is printed in front of the quoted kid. */
  function Lead(covered: seq<string>, created: int): string {
    SIGNATURE_LABEL + "=" + SignatureParams.ShowList(covered) + CreatedAndKeyid(created)
  }

  lemma LeadIsLevel(covered: seq<string>, created: int)
    requires forall n :: n in covered ==> SignatureParams.CleanName(n)
    ensures Level(Lead(covered, created))
    ensures Lead(covered, created) != "" && Lead(covered, created)[0] == 's'
  {
    hide Neutral, CreatedAndKeyid;
    NeutralText(SIGNATURE_LABEL + "=");
    NeutralNames(covered);
    NeutralParens(Join(SignatureParams.Quoted(covered), " "));
    NeutralConcat(SIGNATURE_LABEL + "=", SignatureParams.ShowList(covered));
    NeutralCreated(created);
    NeutralConcat(SIGNATURE_LABEL + "=" + SignatureParams.ShowList(covered), CreatedAndKeyid(created));
    NeutralIsLevel(Lead(covered, created));
  }

  lemma ShownParts(covered: seq<string>, created: int, kid: string, expires: Option<int>)
    ensures SIGNATURE_LABEL + "=" + SignatureParams.Show(covered, created, kid, expires)
         == Lead(covered, created) + SignatureParams.Quote(kid) + ExpiresTail(expires)
  {
    TailParts(created, kid, expires);
    hide SignatureParams.ShowTail, SignatureParams.ShowList, SignatureParams.Quote, ExpiresTail, CreatedAndKeyid;
  }

  lemma ShownIsQuotable(covered: seq<string>, created: int, kid: string, expires: Option<int>)
    requires forall n :: n in covered ==> SignatureParams.CleanName(n)
    requires var parsed := Dictionary.Parse(SIGNATURE_LABEL + "=" + SignatureParams.Show(covered, created, kid, expires));
             parsed.Ok? && |parsed.value| == 1
    ensures Quotable(kid)
  {
    hide Level, Lead, SignatureParams.Show, SignatureParams.Quote, Dictionary.Parse, Quotable;
    LeadIsLevel(covered, created);
    ExpiresIsQuiet(expires);
    hide ExpiresTail;
    ShownParts(covered, created, kid, expires);
    OneMemberMeansQuotable(Lead(covered, created), kid, ExpiresTail(expires));
  }

  lemma AcceptedKeyid<K, P>(scheme: Scheme<K, P>, ring: Keyring<P>, components: Components, rawParams: string,
                            text: Option<string>, required: seq<string>, now: int)
    requires VerifyOne(scheme, ring, components, rawParams, text, required, now).Ok?
    ensures SignatureParams.Parse(rawParams).Ok?
    ensures VerifyOne(scheme, ring, components, rawParams, text, required, now).value
         == SignatureParams.Parse(rawParams).value.keyid
  {
    hide SignatureParams.Parse, SignatureBase, ByteSequence, FindKey, FirstMissing;
  }

  /** No accepted signature ever names an empty kid or one with a semicolon. */
  lemma AcceptedKidIsPlain<K, P>(scheme: Scheme<K, P>, ring: Keyring<P>, components: Components, signatureInput: string,
                                 signature: string, required: seq<string>, now: int)
    requires Verify(scheme, ring, components, signatureInput, signature, required, now).Ok?
    ensures SignatureParams.PlainKid(Verify(scheme, ring, components, signatureInput, signature, required, now).value)
  {
    hide VerifyOne, SignatureParams.Parse, Dictionary.Parse, SignatureParams.PlainKid;
    var r := Verify(scheme, ring, components, signatureInput, signature, required, now);
    var inputs := Dictionary.Parse(signatureInput).value;
    var signatures := Dictionary.Parse(signature).value;
    VerifyFromOutcome(scheme, ring, components, inputs, signatures, required, now, 0, None);
    var j :| 0 <= j < |inputs| && VerifyAt(scheme, ring, components, inputs, signatures, required, now, j) == r;
    AcceptedKeyid(scheme, ring, components, inputs[j].1, Lookup(signatures, inputs[j].0), required, now);
    SignatureParams.ParsedKidIsPlain(inputs[j].1);
  }

  /** When the signer's base exists: every covered component is present. */
  lemma {:induction false} BaseExists(components: Components, covered: seq<string>, params: string)
    ensures SignatureBase(components, covered, params).Ok? <==> forall n :: n in covered ==> n in components
    decreases |covered|
  {
    if covered != [] {
      assert forall n :: n in covered <==> n == covered[0] || n in covered[1..];
      BaseExists(components, covered[1..], params);
    }
  }

  /** The verdict a correct verifier owes a genuine signature. */
  function Verdict(covered: seq<string>, created: int, kid: string, expires: Option<int>,
                   required: seq<string>, now: int): Result<string, SignatureError>
  {
    var missing := FirstMissing(required, covered);
    if missing.Some? then Err(CoverageInsufficient(missing.value))
    else if created < now - 300 || created > now + 300 then Err(Stale(now - created))
    else if expires.Some? && expires.value < now then Err(Expired)
    else Ok(kid)
  }

  lemma GenuineVerdict<K, P>(scheme: Scheme<K, P>, key: K, kid: string, components: Components,
                             covered: seq<string>, created: int, expires: Option<int>, ring: Keyring<P>,
                             required: seq<string>, now: int, params: string, base: string, text: string)
    requires Sound(scheme, key)
    requires FindKey(ring, kid) == Some(scheme.publicKey(key))
    requires SignatureParams.Parse(params) == Ok(SignatureParams.Params(covered, Some(created), expires, kid, None))
    requires SignatureBase(components, covered, params) == Ok(base)
    requires ByteSequence(text) == Some(scheme.sign(key, base))
    ensures VerifyOne(scheme, ring, components, params, Some(text), required, now)
         == Verdict(covered, created, kid, expires, required, now)
  {
    hide SignatureParams.Parse, SignatureBase, ByteSequence, FindKey, FirstMissing;
  }

  /** Both printed headers parse to one labelled member, and that member earns the verdict. */
  lemma SignedHeaders<K, P>(scheme: Scheme<K, P>, key: K, kid: string, components: Components,
                            covered: seq<string>, created: int, expires: Option<int>,
                            ring: Keyring<P>, required: seq<string>, now: int)
    returns (signed: SignedMessage, params: string, text: string)
    requires Sound(scheme, key)
    requires CleanMessage(covered, created, kid, expires)
    requires forall n :: n in covered ==> n in components
    requires FindKey(ring, kid) == Some(scheme.publicKey(key))
    ensures SignMessage(scheme, key, kid, components, covered, created, expires) == Ok(signed)
    ensures Dictionary.Parse(signed.signatureInput) == Ok([(SIGNATURE_LABEL, params)])
    ensures Dictionary.Parse(signed.signature) == Ok([(SIGNATURE_LABEL, text)])
    ensures VerifyOne(scheme, ring, components, params, Some(text), required, now)
         == Verdict(covered, created, kid, expires, required, now)
  {
    params := SignatureParams.Show(covered, created, kid, expires);
    BaseExists(components, covered, params);
    var base := SignatureBase(components, covered, params).value;
    var bytes := scheme.sign(key, base);
    text := ":" + Base64.Encode(bytes) + ":";
    signed := SignedMessage(SIGNATURE_LABEL + "=" + params, SIGNATURE_LABEL + "=" + text);
    assert SIGNATURE_LABEL + "=" + ":" + Base64.Encode(bytes) + ":" == SIGNATURE_LABEL + "=" + text;
    ParseSignedInput(covered, created, kid, expires);
    ParseSignedBytes(bytes);
    NeutralIsLevel(text);
    ParseLabelled(text);
    SignatureParams.ParseShown(covered, created, kid, expires);
    GenuineVerdict(scheme, key, kid, components, covered, created, expires, ring, required, now, params, base, text);
    hide Base64.Encode, SignatureParams.Show, SignatureParams.Parse, SignatureBase, ByteSequence, Dictionary.Parse,
      VerifyOne, Verdict;
  }

  /**
   Sign, then verify. For every message, covered list, creation and expiry time and
   key, a keyring that holds the public key under that kid accepts the printed headers
   exactly when the required components are covered and the times are in order.
   */
  lemma SignThenVerify<K, P>(scheme: Scheme<K, P>, key: K, kid: string, components: Components,
                             covered: seq<string>, created: int, expires: Option<int>,
                             ring: Keyring<P>, required: seq<string>, now: int)
    requires Sound(scheme, key)
    requires CleanMessage(covered, created, kid, expires)
    requires forall n :: n in covered ==> n in components
    requires FindKey(ring, kid) == Some(scheme.publicKey(key))
    ensures var signed := SignMessage(scheme, key, kid, components, covered, created, expires);
            && signed.Ok?
            && Verify(scheme, ring, components, signed.value.signatureInput, signed.value.signature, required, now)
               == Verdict(covered, created, kid, expires, required, now)
  {
    var signed, params, text :=
      SignedHeaders(scheme, key, kid, components, covered, created, expires, ring, required, now);
    hide SignMessage, VerifyOne, Dictionary.Parse, Verdict;
    var inputs := [(SIGNATURE_LABEL, params)];
    var signatures := [(SIGNATURE_LABEL, text)];
    assert Lookup(signatures, SIGNATURE_LABEL) == Some(text);
    VerifyFromOutcome(scheme, ring, components, inputs, signatures, required, now, 0, None);
  }

  lemma {:induction false} LookupConcat(a: seq<Dictionary.Member>, b: seq<Dictionary.Member>, name: string)
    requires Lookup(a, name).None?
    ensures Lookup(a + b, name) == Lookup(b, name)
    decreases |a|
  {
    if a == [] {
      assert a + b == b;
    } else {
      assert (a + b)[1..] == a[1..] + b;
      LookupConcat(a[1..], b, name);
    }
  }

  /**
   A signature survives company: put other signatures in front, on repeated header
   lines joined by `, `, and the message is still accepted as long as none of them
   claims our label; for its own kid when none of them verifies first.
   */
  lemma SignatureAmongOthers<K, P>(scheme: Scheme<K, P>, key: K, kid: string, components: Components,
                                   covered: seq<string>, created: int, expires: Option<int>,
                                   ring: Keyring<P>, required: seq<string>, now: int,
                                   otherInput: string, otherSignature: string)
    requires Sound(scheme, key)
    requires CleanMessage(covered, created, kid, expires)
    requires forall n :: n in covered ==> n in components
    requires FindKey(ring, kid) == Some(scheme.publicKey(key))
    requires Verdict(covered, created, kid, expires, required, now) == Ok(kid)
    requires Dictionary.Parse(otherInput).Ok?
    requires Dictionary.Parse(otherSignature).Ok?
    requires Lookup(Dictionary.Parse(otherSignature).value, SIGNATURE_LABEL).None?
    ensures var signed := SignMessage(scheme, key, kid, components, covered, created, expires);
            && signed.Ok?
            && Verify(scheme, ring, components, otherInput + ", " + signed.value.signatureInput,
                      otherSignature + ", " + signed.value.signature, required, now).Ok?
    ensures var signed := SignMessage(scheme, key, kid, components, covered, created, expires).value;
            var inputs := Dictionary.Parse(otherInput + ", " + signed.signatureInput).value;
            var signatures := Dictionary.Parse(otherSignature + ", " + signed.signature).value;
            (forall j :: 0 <= j < |inputs| - 1 ==>
               VerifyAt(scheme, ring, components, inputs, signatures, required, now, j).Err?)
            ==> Verify(scheme, ring, components, otherInput + ", " + signed.signatureInput,
                       otherSignature + ", " + signed.signature, required, now) == Ok(kid)
  {
    var signed, params, text :=
      SignedHeaders(scheme, key, kid, components, covered, created, expires, ring, required, now);
    Dictionary.ParseAppended(otherInput, signed.signatureInput);
    Dictionary.ParseAppended(otherSignature, signed.signature);
    hide SignMessage, VerifyOne, Dictionary.Parse, Verdict, Sound, CleanMessage;
    var inputs := Dictionary.Parse(otherInput).value + [(SIGNATURE_LABEL, params)];
    var own := [(SIGNATURE_LABEL, text)];
    var signatures := Dictionary.Parse(otherSignature).value + own;
    LookupConcat(Dictionary.Parse(otherSignature).value, own, SIGNATURE_LABEL);
    assert Lookup(own, SIGNATURE_LABEL) == Some(text);
    hide Lookup;
    assert VerifyAt(scheme, ring, components, inputs, signatures, required, now, |inputs| - 1) == Ok(kid);
    hide VerifyAt, VerifyFrom;
    VerifyFromOutcome(scheme, ring, components, inputs, signatures, required, now, 0, None);
  }

  lemma ParseDigest(value: string)
    requires Neutral(value) && Tight(value)
    ensures Dictionary.Parse("sha-256" + "=" + value) == Ok([("sha-256", value)])
  {
    NeutralText("sha-256=");
    NeutralConcat("sha-256=", value);
    assert "sha-256" + "=" == "sha-256=";
    assert Keeps(Dictionary.START, "sha-256=" + value);
    assert "" + ("sha-256=" + value) == "sha-256=" + value;
    Dictionary.ParseOne(("sha-256", value));
  }

  /** A printed body digest matches a body exactly when the hashes agree. */
  lemma ContentDigestMatches(hash: seq<byte> -> seq<byte>, signedBody: seq<byte>, body: seq<byte>)
    ensures VerifyContentDigest(hash, ContentDigest(hash, signedBody), body)
         == if hash(signedBody) == hash(body) then Ok(()) else Err(DigestMismatch)
  {
    hide Base64.Encode, Neutral, Dictionary.Parse, ByteSequence;
    var text := ":" + Base64.Encode(hash(signedBody)) + ":";
    ParseSignedBytes(hash(signedBody));
    ParseDigest(text);
    assert ContentDigest(hash, signedBody) == "sha-256" + "=" + text;
    assert Lookup([("sha-256", text)], "sha-256") == Some(text);
  }
}
