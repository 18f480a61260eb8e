/**
 The verifier's verdict on one signature, reason by reason, for parameters with any
 fields; and what an accepted signature's own parameters can be.
 */
module SignatureVerdicts {
  import opened Wrappers
  import opened Text
  import opened MessageSignatures
  import Base64
  import Decimal
  import Dictionary
  import ParameterGrammar
  import SignatureAuthenticity
  import SignatureParams
  import SignatureRoundTrip

  // ---- What the verifier asks of the parameters ------------------------------------------------

  /** The first required component that is not covered. */
  ghost predicate IsFirstMissing(required: seq<string>, covered: seq<string>, name: string) {
    exists i :: 0 <= i < |required| && required[i] == name && name !in covered
                && forall j :: 0 <= j < i ==> required[j] in covered
  }

  predicate Covers(required: seq<string>, covered: seq<string>) {
    forall n :: n in required ==> n in covered
  }

  /** Created within five minutes of now, on either side. */
  predicate IsFresh(p: SignatureParams.Params, now: int) {
    p.created.Some? ==> now - 300 <= p.created.value <= now + 300
  }

  predicate IsUnexpired(p: SignatureParams.Params, now: int) {
    p.expires.Some? ==> now <= p.expires.value
  }

  /** The key the ring holds first under this kid. */
  ghost predicate IsKeyOf<P>(ring: Keyring<P>, kid: string, key: P) {
    exists i :: 0 <= i < |ring| && ring[i] == (kid, key) && forall j :: 0 <= j < i ==> ring[j].0 != kid
  }

  predicate IsUnknown<P>(ring: Keyring<P>, kid: string) {
    forall i :: 0 <= i < |ring| ==> ring[i].0 != kid
  }

  /** The parameters name no algorithm, or the key's own. */
  predicate AlgorithmFits(p: SignatureParams.Params, algorithm: string) {
    p.alg == None || p.alg == Some(algorithm)
  }

  lemma {:induction false} FirstMissingIsFirst(required: seq<string>, covered: seq<string>)
    ensures FirstMissing(required, covered).Some? ==> IsFirstMissing(required, covered, FirstMissing(required, covered).value)
  {
    if required != [] && required[0] in covered && FirstMissing(required, covered).Some? {
      var rest, name := required[1..], FirstMissing(required, covered).value;
      FirstMissingIsFirst(rest, covered);
      var i :| 0 <= i < |rest| && rest[i] == name && forall j :: 0 <= j < i ==> rest[j] in covered;
      assert required[i + 1] == name && forall j :: 0 < j < i + 1 ==> required[j] == rest[j - 1];
    }
  }

  lemma {:induction false} KeyIsFound<P>(ring: Keyring<P>, kid: string)
    ensures FindKey(ring, kid).None? <==> IsUnknown(ring, kid)
    ensures FindKey(ring, kid).Some? ==> IsKeyOf(ring, kid, FindKey(ring, kid).value)
  {
    if ring != [] && ring[0].0 != kid {
      KeyIsFound(ring[1..], kid);
      assert forall j :: 0 < j < |ring| ==> ring[j] == ring[1..][j - 1];
      if FindKey(ring, kid).Some? {
        var key := FindKey(ring, kid).value;
        var i :| 0 <= i < |ring| - 1 && ring[1..][i] == (kid, key) && forall j :: 0 <= j < i ==> ring[1..][j].0 != kid;
        assert ring[i + 1] == (kid, key);
      }
    }
  }

  lemma KeyIsUnique<P>(ring: Keyring<P>, kid: string, a: P, b: P)
    requires IsKeyOf(ring, kid, a) && IsKeyOf(ring, kid, b)
    ensures a == b
  {
    var i :| 0 <= i < |ring| && ring[i] == (kid, a) && forall j :: 0 <= j < i ==> ring[j].0 != kid;
    var k :| 0 <= k < |ring| && ring[k] == (kid, b) && forall j :: 0 <= j < k ==> ring[j].0 != kid;
  }

  // ---- The verdict -------------------------------------------------------------------------------

  /** What a verifier owes parameters whose key it holds and whose signature is genuine. */
  function Owed(p: SignatureParams.Params, algorithm: string, required: seq<string>, now: int): Result<string, SignatureError> {
    if !Covers(required, p.covered) then Err(CoverageInsufficient(FirstMissing(required, p.covered).value))
    else if !IsFresh(p, now) then Err(Stale(now - p.created.value))
    else if !IsUnexpired(p, now) then Err(Expired)
    else if !AlgorithmFits(p, algorithm) then Err(AlgorithmUnsupported(p.alg.value))
    else Ok(p.keyid)
  }

  /**
   Acceptance, exactly. A label is accepted for a kid if and only if its parameters parse
   and name that kid, cover what is required, are neither stale nor expired, name no
   algorithm or the key's own, and the carried bytes verify for the base under the key
   that the ring holds first for that kid.
   */
  lemma AcceptedExactly<K, P>(scheme: Scheme<K, P>, ring: Keyring<P>, components: Components, rawParams: string,
                              signature: Option<string>, required: seq<string>, now: int, kid: string)
    ensures VerifyOne(scheme, ring, components, rawParams, signature, required, now) == Ok(kid) <==>
              && SignatureParams.Parse(rawParams).Ok?
              && var p := SignatureParams.Parse(rawParams).value;
                 && kid == p.keyid && Covers(required, p.covered) && IsFresh(p, now) && IsUnexpired(p, now)
                 && exists key :: IsKeyOf(ring, kid, key) && AlgorithmFits(p, scheme.algorithm(key))
                                  && signature.Some? && ByteSequence(signature.value).Some?
                                  && SignatureBase(components, p.covered, rawParams).Ok?
                                  && scheme.verify(key, SignatureBase(components, p.covered, rawParams).value,
                                                   ByteSequence(signature.value).value)
  {
    if SignatureParams.Parse(rawParams).Ok? {
      var p := SignatureParams.Parse(rawParams).value;
      KeyIsFound(ring, p.keyid);
      hide SignatureParams.Parse, SignatureBase, ByteSequence, FindKey, FirstMissing, IsKeyOf, IsUnknown;
      forall key | IsKeyOf(ring, p.keyid, key)
        ensures FindKey(ring, p.keyid) == Some(key)
      {
        KnownKey(ring, p.keyid, key);
      }
    }
  }

  lemma KnownKey<P>(ring: Keyring<P>, kid: string, key: P)
    requires IsKeyOf(ring, kid, key)
    ensures FindKey(ring, kid) == Some(key)
  {
    KeyIsFound(ring, kid);
    if FindKey(ring, kid).Some? {
      KeyIsUnique(ring, kid, key, FindKey(ring, kid).value);
    }
    hide FindKey;
  }

  /** Coverage and times are in order. */
  predicate PassesEarly(p: SignatureParams.Params, required: seq<string>, now: int) {
    Covers(required, p.covered) && IsFresh(p, now) && IsUnexpired(p, now)
  }

  /** The verdict once coverage and times are in order. */
  function ByKey<K, P>(scheme: Scheme<K, P>, ring: Keyring<P>, components: Components, rawParams: string,
                       p: SignatureParams.Params, bytes: Option<seq<Base64.byte>>): Result<string, SignatureError>
  {
    match FindKey(ring, p.keyid)
    case None => Err(KeyNotFound(p.keyid))
    case Some(key) =>
      if !AlgorithmFits(p, scheme.algorithm(key)) then Err(AlgorithmUnsupported(p.alg.value))
      else if bytes.None? then Err(Missing)
      else
        match SignatureBase(components, p.covered, rawParams)
        case Err(e) => Err(e)
        case Ok(base) => if scheme.verify(key, base, bytes.value) then Ok(p.keyid) else Err(VerificationFailed)
  }

  lemma VerdictParts<K, P>(scheme: Scheme<K, P>, ring: Keyring<P>, components: Components, rawParams: string,
                           signature: Option<string>, required: seq<string>, now: int)
    requires SignatureParams.Parse(rawParams).Ok?
    ensures var r, p := VerifyOne(scheme, ring, components, rawParams, signature, required, now), SignatureParams.Parse(rawParams).value;
            r == if !Covers(required, p.covered) then Err(CoverageInsufficient(FirstMissing(required, p.covered).value))
                 else if !IsFresh(p, now) then Err(Stale(now - p.created.value))
                 else if !IsUnexpired(p, now) then Err(Expired)
                 else ByKey(scheme, ring, components, rawParams, p,
                            if signature.None? then None else ByteSequence(signature.value))
  {
    hide SignatureParams.Parse, SignatureBase, ByteSequence, FindKey, FirstMissing;
  }

  /**
   The first reasons for a refusal, exactly, in the order in which they are looked for: the
   first required component not covered, a stale signature, an expired one.
   */
  lemma RefusedEarlyExactly<K, P>(scheme: Scheme<K, P>, ring: Keyring<P>, components: Components, rawParams: string,
                                  signature: Option<string>, required: seq<string>, now: int)
    requires SignatureParams.Parse(rawParams).Ok?
    ensures var r, p := VerifyOne(scheme, ring, components, rawParams, signature, required, now), SignatureParams.Parse(rawParams).value;
            && (forall n :: r == Err(CoverageInsufficient(n)) <==> IsFirstMissing(required, p.covered, n))
            && (forall skew :: r == Err(Stale(skew)) <==>
                  Covers(required, p.covered) && !IsFresh(p, now) && skew == now - p.created.value)
            && (r == Err(Expired) <==> Covers(required, p.covered) && IsFresh(p, now) && !IsUnexpired(p, now))
  {
    var p := SignatureParams.Parse(rawParams).value;
    VerdictParts(scheme, ring, components, rawParams, signature, required, now);
    FirstMissingIsFirst(required, p.covered);
    var later := ByKey(scheme, ring, components, rawParams, p, if signature.None? then None else ByteSequence(signature.value));
    ByKeyErrors(scheme, ring, components, rawParams, p, if signature.None? then None else ByteSequence(signature.value));
    hide *;
    EarlyVerdict(VerifyOne(scheme, ring, components, rawParams, signature, required, now), later, p, required, now);
  }

  /** The errors that belong to the key, the bytes and the base. */
  predicate IsLate(r: Result<string, SignatureError>) {
    r.Ok? || r.error.KeyNotFound? || r.error.AlgorithmUnsupported? || r.error.Missing? || r.error.Malformed?
    || r.error.VerificationFailed?
  }

  lemma EarlyVerdict(r: Result<string, SignatureError>, later: Result<string, SignatureError>, p: SignatureParams.Params,
                     required: seq<string>, now: int)
    requires r == if !Covers(required, p.covered) then Err(CoverageInsufficient(FirstMissing(required, p.covered).value))
                  else if !IsFresh(p, now) then Err(Stale(now - p.created.value))
                  else if !IsUnexpired(p, now) then Err(Expired)
                  else later
    requires IsLate(later)
    ensures forall n :: r == Err(CoverageInsufficient(n)) <==> IsFirstMissing(required, p.covered, n)
    ensures forall skew :: r == Err(Stale(skew)) <==>
              Covers(required, p.covered) && !IsFresh(p, now) && skew == now - p.created.value
    ensures r == Err(Expired) <==> Covers(required, p.covered) && IsFresh(p, now) && !IsUnexpired(p, now)
  {
    FirstMissingIsFirst(required, p.covered);
    FirstMissingOnly(required, p.covered);
    hide FirstMissing, IsFirstMissing;
  }

  lemma ByKeyErrors<K, P>(scheme: Scheme<K, P>, ring: Keyring<P>, components: Components, rawParams: string,
                          p: SignatureParams.Params, bytes: Option<seq<Base64.byte>>)
    ensures IsLate(ByKey(scheme, ring, components, rawParams, p, bytes))
  {
    NoOtherErrors(components, p.covered, rawParams);
    hide SignatureBase, FindKey;
  }

  /** An unknown kid is reported exactly when the ring holds no key under it, once coverage and times are in order. */
  lemma UnknownKidExactly<K, P>(scheme: Scheme<K, P>, ring: Keyring<P>, components: Components, rawParams: string,
                                signature: Option<string>, required: seq<string>, now: int)
    requires SignatureParams.Parse(rawParams).Ok? && PassesEarly(SignatureParams.Parse(rawParams).value, required, now)
    ensures var kid := SignatureParams.Parse(rawParams).value.keyid;
            VerifyOne(scheme, ring, components, rawParams, signature, required, now) == Err(KeyNotFound(kid)) <==> IsUnknown(ring, kid)
  {
    var p := SignatureParams.Parse(rawParams).value;
    VerdictParts(scheme, ring, components, rawParams, signature, required, now);
    KeyIsFound(ring, p.keyid);
    NoOtherErrors(components, p.covered, rawParams);
    hide VerifyOne, SignatureParams.Parse, SignatureBase, ByteSequence, FindKey, FirstMissing, IsKeyOf, IsUnknown, AlgorithmFits;
  }

  /**
   The other reasons, exactly, once coverage and times are in order and the ring holds the
   key: an algorithm that is not the key's, no signature under the label, a covered
   component that is absent, and bytes that do not verify.
   */
  lemma RefusedByKeyExactly<K, P>(scheme: Scheme<K, P>, ring: Keyring<P>, components: Components, rawParams: string,
                                  signature: Option<string>, required: seq<string>, now: int, key: P)
    requires SignatureParams.Parse(rawParams).Ok? && PassesEarly(SignatureParams.Parse(rawParams).value, required, now)
    requires IsKeyOf(ring, SignatureParams.Parse(rawParams).value.keyid, key)
    ensures var r, p := VerifyOne(scheme, ring, components, rawParams, signature, required, now), SignatureParams.Parse(rawParams).value;
            var bytes := if signature.None? then None else ByteSequence(signature.value);
            var base := SignatureBase(components, p.covered, rawParams);
            var fits := AlgorithmFits(p, scheme.algorithm(key));
            && (forall alg :: r == Err(AlgorithmUnsupported(alg)) <==> p.alg == Some(alg) && alg != scheme.algorithm(key))
            && (r == Err(Missing) <==> fits && bytes.None?)
            && (r.Err? && r.error.Malformed? <==> fits && bytes.Some? && base.Err?)
            && (r == Err(VerificationFailed) <==>
                  fits && bytes.Some? && base.Ok? && !scheme.verify(key, base.value, bytes.value))
  {
    var p := SignatureParams.Parse(rawParams).value;
    VerdictParts(scheme, ring, components, rawParams, signature, required, now);
    KnownKey(ring, p.keyid, key);
    NoOtherErrors(components, p.covered, rawParams);
    hide VerifyOne, SignatureParams.Parse, SignatureBase, ByteSequence, FindKey, FirstMissing, IsKeyOf, IsUnknown;
  }

  lemma FirstMissingOnly(required: seq<string>, covered: seq<string>)
    ensures forall n :: IsFirstMissing(required, covered, n) ==> FirstMissing(required, covered) == Some(n)
  {
    FirstMissingIsFirst(required, covered);
    forall n | IsFirstMissing(required, covered, n)
      ensures FirstMissing(required, covered) == Some(n)
    {
      var i :| 0 <= i < |required| && required[i] == n && n !in covered && forall j :: 0 <= j < i ==> required[j] in covered;
      assert n in required;
      var m := FirstMissing(required, covered).value;
      var k :| 0 <= k < |required| && required[k] == m && m !in covered && forall j :: 0 <= j < k ==> required[j] in covered;
    }
  }

  lemma {:induction false} NoOtherErrors(components: Components, covered: seq<string>, params: string)
    ensures SignatureBase(components, covered, params).Err? ==> SignatureBase(components, covered, params).error.Malformed?
    decreases |covered|
  {
    if covered != [] {
      NoOtherErrors(components, covered[1..], params);
    }
  }

  /** Wherever it stands in the headers: an accepted signature names no algorithm, or that of the key found for its kid. */
  lemma AcceptedAlgorithm<K, P>(scheme: Scheme<K, P>, ring: Keyring<P>, components: Components, signatureInput: string,
                                signature: string, required: seq<string>, now: int, kid: string)
    requires Verify(scheme, ring, components, signatureInput, signature, required, now) == Ok(kid)
    ensures Dictionary.Parse(signatureInput).Ok?
    ensures exists member, key ::
              && member in Dictionary.Parse(signatureInput).value && SignatureParams.Parse(member.1).Ok?
              && SignatureParams.Parse(member.1).value.keyid == kid && IsKeyOf(ring, kid, key)
              && AlgorithmFits(SignatureParams.Parse(member.1).value, scheme.algorithm(key))
  {
    hide VerifyOne, SignatureParams.Parse, Dictionary.Parse, IsKeyOf;
    var inputs, signatures := Dictionary.Parse(signatureInput).value, Dictionary.Parse(signature).value;
    VerifyFromOutcome(scheme, ring, components, inputs, signatures, required, now, 0, None);
    var j :| 0 <= j < |inputs| && VerifyAt(scheme, ring, components, inputs, signatures, required, now, j) == Ok(kid);
    AcceptedExactly(scheme, ring, components, inputs[j].1, Lookup(signatures, inputs[j].0), required, now, kid);
    hide SignatureBase, ByteSequence, Lookup;
    assert inputs[j] in inputs;
  }

  /** A genuine signature over parameters with any fields earns what is owed to them. */
  lemma GenuineVerdict<K, P>(scheme: Scheme<K, P>, key: K, components: Components, rawParams: string,
                             p: SignatureParams.Params, ring: Keyring<P>, required: seq<string>, now: int, base: string,
                             text: string)
    requires Sound(scheme, key) && FindKey(ring, p.keyid) == Some(scheme.publicKey(key))
    requires SignatureParams.Parse(rawParams) == Ok(p) && SignatureBase(components, p.covered, rawParams) == Ok(base)
    requires ByteSequence(text) == Some(scheme.sign(key, base))
    ensures VerifyOne(scheme, ring, components, rawParams, Some(text), required, now)
         == Owed(p, scheme.algorithm(scheme.publicKey(key)), required, now)
  {
    hide SignatureParams.Parse, SignatureBase, ByteSequence, FindKey, FirstMissing;
  }

  // ---- Signing under parameters with an algorithm ------------------------------------------------

  /** The printed parameters with an algorithm named behind them. */
  function ShowNaming(covered: seq<string>, created: int, kid: string, expires: Option<int>, alg: string): string {
    SignatureParams.Show(covered, created, kid, expires) + ";alg=" + SignatureParams.Quote(alg)
  }

  /** Headers for any parameters text. */
  function Headers<K, P>(scheme: Scheme<K, P>, key: K, rawParams: string, base: string): SignedMessage {
    SignedMessage(SIGNATURE_LABEL + "=" + rawParams,
                  SIGNATURE_LABEL + "=" + (":" + Base64.Encode(scheme.sign(key, base)) + ":"))
  }

  /**
   Sign any parameters, then verify: whatever fields they have, if they parse and stand
   alone in their header, a keyring that holds the kid's public key answers with exactly
   what is owed to them; an algorithm that is not the key's is refused once coverage and
   times pass, and the key's own, or none, changes nothing.
   */
  lemma SignAnyThenVerify<K, P>(scheme: Scheme<K, P>, key: K, components: Components, rawParams: string,
                                p: SignatureParams.Params, ring: Keyring<P>, required: seq<string>, now: int, base: string)
    requires Sound(scheme, key) && FindKey(ring, p.keyid) == Some(scheme.publicKey(key))
    requires SignatureParams.Parse(rawParams) == Ok(p) && SignatureBase(components, p.covered, rawParams) == Ok(base)
    requires Dictionary.Parse(SIGNATURE_LABEL + "=" + rawParams) == Ok([(SIGNATURE_LABEL, rawParams)])
    ensures var signed := Headers(scheme, key, rawParams, base);
            Verify(scheme, ring, components, signed.signatureInput, signed.signature, required, now)
            == Owed(p, scheme.algorithm(scheme.publicKey(key)), required, now)
  {
    var bytes := scheme.sign(key, base);
    var text := ":" + Base64.Encode(bytes) + ":";
    SignatureRoundTrip.ParseSignedBytes(bytes);
    SignatureRoundTrip.NeutralIsLevel(text);
    SignatureRoundTrip.ParseLabelled(text);
    GenuineVerdict(scheme, key, components, rawParams, p, ring, required, now, base, text);
    hide VerifyOne, Dictionary.Parse, SignatureParams.Parse, SignatureBase, Owed, Base64.Encode, ByteSequence, Sound, FindKey;
    var inputs, signatures := [(SIGNATURE_LABEL, rawParams)], [(SIGNATURE_LABEL, text)];
    assert Lookup(signatures, SIGNATURE_LABEL) == Some(text);
    VerifyFromOutcome(scheme, ring, components, inputs, signatures, required, now, 0, None);
  }

  lemma {:induction false} JoinSnoc(parts: seq<string>, last: string, sep: string)
    requires parts != []
    ensures Join(parts + [last], sep) == Join(parts, sep) + sep + last
    decreases |parts|
  {
    if |parts| == 1 {
      assert (parts + [last])[1..] == [last];
    } else {
      assert (parts + [last])[1..] == parts[1..] + [last];
      JoinSnoc(parts[1..], last, sep);
      assert parts[0] + sep + (Join(parts[1..], sep) + sep + last) == parts[0] + sep + Join(parts[1..], sep) + sep + last;
    }
  }

  lemma ApplyAlg(p: SignatureParams.Params, alg: string)
    ensures SignatureParams.ApplyAll(p, ["alg=" + SignatureParams.Quote(alg)]) == Ok(p.(alg := Some(alg)))
  {
    var param := "alg" + "=" + SignatureParams.Quote(alg);
    assert param == "alg=" + SignatureParams.Quote(alg);
    assert param[|param| - 1] == '"';
    TrimTight(param);
    SplitOnceAt("alg", '=', SignatureParams.Quote(alg));
    SignatureParams.UnquoteQuote(alg);
    assert [param][1..] == [];
  }

  lemma SplitNaming(created: int, kid: string, expires: Option<int>, alg: string)
    requires SignatureParams.PlainKid(kid) && ';' !in alg
    ensures var last := "alg=" + SignatureParams.Quote(alg);
            Split(SignatureParams.ShowTail(created, kid, expires) + ";" + last, ';')
            == [""] + SignatureParams.Pieces(created, kid, expires) + [last]
  {
    var last := "alg=" + SignatureParams.Quote(alg);
    SignatureParams.ShowIntIsPlain(created);
    if expires.Some? {
      SignatureParams.ShowIntIsPlain(expires.value);
    }
    SignatureParams.TailIsJoined(created, kid, expires);
    JoinSnoc([""] + SignatureParams.Pieces(created, kid, expires), last, ";");
    assert forall x :: x in [""] + SignatureParams.Pieces(created, kid, expires) + [last] ==> ';' !in x;
    SplitOfJoin([""] + SignatureParams.Pieces(created, kid, expires) + [last], ';');
  }

  /** Printed parameters that name an algorithm parse to their fields, the algorithm among them. */
  lemma ParseShownNaming(covered: seq<string>, created: int, kid: string, expires: Option<int>, alg: string)
    requires forall n :: n in covered ==> SignatureParams.CleanName(n)
    requires SignatureParams.PlainKid(kid) && ';' !in alg
    requires Decimal.I64_MIN <= created <= Decimal.I64_MAX
    requires expires.Some? ==> Decimal.I64_MIN <= expires.value <= Decimal.I64_MAX
    ensures SignatureParams.Parse(ShowNaming(covered, created, kid, expires, alg))
         == Ok(SignatureParams.Params(covered, Some(created), expires, kid, Some(alg)))
  {
    var list := Join(SignatureParams.Quoted(covered), " ");
    var last := "alg=" + SignatureParams.Quote(alg);
    var tail := SignatureParams.ShowTail(created, kid, expires) + ";" + last;
    var raw := ShowNaming(covered, created, kid, expires, alg);
    NamingShape(covered, created, kid, expires, alg);
    TrimTight(raw);
    SignatureParams.QuotedClean(covered);
    SignatureParams.JoinAvoids(SignatureParams.Quoted(covered), ')');
    hide SignatureParams.ShowTail, SignatureParams.Quote, SignatureParams.Apply, SignatureParams.Pieces, ShowNaming, Join, Trim,
      SignatureParams.ApplyAll, Split, Words, SignatureParams.Names;
    SplitOnceAt(list, ')', tail);
    WordsOfJoin(SignatureParams.Quoted(covered));
    SignatureParams.NamesOfQuoted(covered);
    SplitNaming(created, kid, expires, alg);
    SignatureParams.ApplyPieces(covered, created, kid, expires);
    var start := SignatureParams.Params(covered, None, None, "", None);
    ParameterGrammar.ApplyAllConcat(start, [""] + SignatureParams.Pieces(created, kid, expires), [last]);
    ApplyAlg(SignatureParams.Params(covered, Some(created), expires, kid, None), alg);
  }

  lemma NamingShape(covered: seq<string>, created: int, kid: string, expires: Option<int>, alg: string)
    ensures var raw := ShowNaming(covered, created, kid, expires, alg);
            var tail := SignatureParams.ShowTail(created, kid, expires) + ";" + ("alg=" + SignatureParams.Quote(alg));
            && |raw| > 1 && raw[0] == '(' && raw[|raw| - 1] == '"'
            && raw[1..] == Join(SignatureParams.Quoted(covered), " ") + [')'] + tail
  {
    hide SignatureParams.ShowTail, Join;
  }

  /** And they stand alone in their header. */
  lemma NamingStandsAlone(covered: seq<string>, created: int, kid: string, expires: Option<int>, alg: string)
    requires forall n :: n in covered ==> SignatureParams.CleanName(n)
    requires SignatureRoundTrip.Quotable(kid) && SignatureRoundTrip.Quotable(alg)
    ensures var raw := ShowNaming(covered, created, kid, expires, alg);
            Dictionary.Parse(SIGNATURE_LABEL + "=" + raw) == Ok([(SIGNATURE_LABEL, raw)])
  {
    var list, tail := SignatureParams.ShowList(covered), SignatureParams.ShowTail(created, kid, expires);
    var quoted := SignatureParams.Quote(alg);
    var raw := ShowNaming(covered, created, kid, expires, alg);
    assert raw[0] == '(' && raw[|raw| - 1] == '"' && raw == list + tail + ";alg=" + quoted by {
      hide SignatureParams.ShowTail, Join;
    }
    assert Tight(raw);
    hide SignatureRoundTrip.Neutral, SignatureParams.ShowTail, SignatureParams.Quote, SignatureParams.ShowList, Dictionary.Parse, Tight;
    ListIsNeutral(covered);
    SignatureRoundTrip.NeutralText(";alg=");
    SignatureRoundTrip.NeutralIsLevel(";alg=");
    SignatureRoundTrip.NeutralIsLevel(list);
    SignatureRoundTrip.LevelTail(created, kid, expires);
    SignatureRoundTrip.LevelQuoted(alg);
    hide SignatureRoundTrip.Level;
    SignatureRoundTrip.LevelConcat(list, tail);
    SignatureRoundTrip.LevelConcat(list + tail, ";alg=");
    SignatureRoundTrip.LevelConcat(list + tail + ";alg=", quoted);
    SignatureRoundTrip.ParseLabelled(raw);
  }

  lemma ListIsNeutral(covered: seq<string>)
    requires forall n :: n in covered ==> SignatureParams.CleanName(n)
    ensures SignatureRoundTrip.Neutral(SignatureParams.ShowList(covered))
  {
    hide SignatureRoundTrip.Neutral;
    SignatureRoundTrip.NeutralNames(covered);
    SignatureRoundTrip.NeutralParens(Join(SignatureParams.Quoted(covered), " "));
  }

  lemma OwedNaming(covered: seq<string>, created: int, kid: string, expires: Option<int>, alg: string, algorithm: string,
                   required: seq<string>, now: int)
    ensures Owed(SignatureParams.Params(covered, Some(created), expires, kid, Some(alg)), algorithm, required, now)
         == match SignatureRoundTrip.Verdict(covered, created, kid, expires, required, now)
            case Err(e) => Err(e)
            case Ok(_) => if alg == algorithm then Ok(kid) else Err(AlgorithmUnsupported(alg))
  {
    hide FirstMissing;
  }

  /**
   So for every printed message that names an algorithm: the kid is accepted if the
   algorithm is its key's, and otherwise the algorithm is refused, once coverage and times
   are in order.
   */
  lemma SignNamingThenVerify<K, P>(scheme: Scheme<K, P>, key: K, kid: string, components: Components, covered: seq<string>,
                                   created: int, expires: Option<int>, alg: string, ring: Keyring<P>, required: seq<string>,
                                   now: int) returns (base: string)
    requires Sound(scheme, key) && FindKey(ring, kid) == Some(scheme.publicKey(key))
    requires SignatureRoundTrip.CleanMessage(covered, created, kid, expires)
    requires SignatureRoundTrip.Quotable(alg) && ';' !in alg
    requires forall n :: n in covered ==> n in components
    ensures SignatureBase(components, covered, ShowNaming(covered, created, kid, expires, alg)) == Ok(base)
    ensures var signed := Headers(scheme, key, ShowNaming(covered, created, kid, expires, alg), base);
            Verify(scheme, ring, components, signed.signatureInput, signed.signature, required, now)
            == match SignatureRoundTrip.Verdict(covered, created, kid, expires, required, now)
               case Err(e) => Err(e)
               case Ok(_) => if alg == scheme.algorithm(scheme.publicKey(key)) then Ok(kid) else Err(AlgorithmUnsupported(alg))
  {
    var raw := ShowNaming(covered, created, kid, expires, alg);
    SignatureRoundTrip.BaseExists(components, covered, raw);
    base := SignatureBase(components, covered, raw).value;
    var p := SignatureParams.Params(covered, Some(created), expires, kid, Some(alg));
    ParseShownNaming(covered, created, kid, expires, alg);
    NamingStandsAlone(covered, created, kid, expires, alg);
    OwedNaming(covered, created, kid, expires, alg, scheme.algorithm(scheme.publicKey(key)), required, now);
    hide *;
    SignAnyThenVerify(scheme, key, components, raw, p, ring, required, now, base);
  }

  // ---- What the header texts look like -------------------------------------------------------------

  /** A byte sequence is standard base64 between colons, and what follows the second colon is ignored. */
  lemma ByteSequenceExactly(value: string, bytes: seq<Base64.byte>)
    ensures ByteSequence(value) == Some(bytes) <==>
              exists rest :: Trim(value) == ":" + (Base64.Encode(bytes) + ":" + rest)
  {
    var text := Trim(value);
    hide Base64.Encode, Base64.Decode, Trim;
    if ByteSequence(value) == Some(bytes) {
      var inner := text[1..];
      SplitOnceParts(inner, ':');
      var (coded, rest) := SplitOnce(inner, ':').value;
      Base64.EncodeDecode(coded);
      assert inner == coded + ":" + rest;
      assert text == ":" + (Base64.Encode(bytes) + ":" + rest);
    }
    if rest :| text == ":" + (Base64.Encode(bytes) + ":" + rest) {
      Base64.EncodeAvoidsColon(bytes);
      assert text[1..] == Base64.Encode(bytes) + [':'] + rest;
      SplitOnceAt(Base64.Encode(bytes), ':', rest);
      Base64.DecodeEncode(bytes);
    }
  }

  /** The printed parameters, letter by letter. */
  lemma ShownForm(covered: seq<string>, created: int, kid: string, expires: Option<int>)
    ensures SignatureParams.Show(covered, created, kid, expires)
         == "(" + Join(SignatureParams.Quoted(covered), " ") + ");created=" + Decimal.ShowInt(created)
            + ";keyid=\"" + kid + "\"" + (if expires.Some? then ";expires=" + Decimal.ShowInt(expires.value) else "")
    ensures forall i :: 0 <= i < |covered| ==> SignatureParams.Quoted(covered)[i] == "\"" + covered[i] + "\""
  {
    var j, c := Join(SignatureParams.Quoted(covered), " "), Decimal.ShowInt(created);
    var tail := if expires.Some? then ";expires=" + Decimal.ShowInt(expires.value) else "";
    TailForm(created, kid, expires);
    hide Join, Decimal.ShowInt, SignatureParams.Quoted, SignatureParams.ShowTail;
    Regroup("(" + j, ")", ";created=", c + ";keyid=\"" + kid + "\"" + tail);
    assert ")" + ";created=" == ");created=";
    assert "(" + j + ");created=" + (c + ";keyid=\"" + kid + "\"" + tail)
        == "(" + j + ");created=" + c + ";keyid=\"" + kid + "\"" + tail;
  }

  lemma Regroup(a: string, b: string, c: string, d: string)
    ensures a + b + (c + d) == a + (b + c) + d
  {
  }

  lemma CreatedForm(created: int)
    ensures ";" + SignatureParams.CreatedText(created) == ";created=" + Decimal.ShowInt(created)
  {
    hide Decimal.ShowInt;
    assert ";" + "created=" == ";created=";
  }

  lemma KeyidForm(kid: string)
    ensures ";" + SignatureParams.KeyidText(kid) == ";keyid=\"" + kid + "\""
  {
    assert ";" + "keyid=" + "\"" == ";keyid=\"";
  }

  lemma ExpiresForm(expires: int)
    ensures ";" + SignatureParams.ExpiresText(expires) == ";expires=" + Decimal.ShowInt(expires)
  {
    hide Decimal.ShowInt;
    assert ";" + "expires=" == ";expires=";
  }

  lemma Glue(a: string, c: string, q: string, kid: string, r: string, x: string)
    ensures a + c + (q + kid + r) + x == a + (c + q + kid + r + x)
  {
  }

  lemma TailForm(created: int, kid: string, expires: Option<int>)
    ensures SignatureParams.ShowTail(created, kid, expires)
         == ";created=" + (Decimal.ShowInt(created) + ";keyid=\"" + kid + "\""
                           + (if expires.Some? then ";expires=" + Decimal.ShowInt(expires.value) else ""))
  {
    CreatedForm(created);
    KeyidForm(kid);
    if expires.Some? {
      ExpiresForm(expires.value);
    }
    var tail := if expires.Some? then ";expires=" + Decimal.ShowInt(expires.value) else "";
    hide Decimal.ShowInt, SignatureParams.CreatedText, SignatureParams.KeyidText, SignatureParams.ExpiresText;
    SignatureAuthenticity.Associates(";" + SignatureParams.CreatedText(created), ";", SignatureParams.KeyidText(kid));
    Glue(";created=", Decimal.ShowInt(created), ";keyid=\"", kid, "\"", tail);
  }

  // ---- The signed text ----------------------------------------------------------------------------------

  /** A quoted name, a colon, a blank and a value. */
  function Headed(name: string, value: string): string {
    "\"" + name + "\"" + ": " + value
  }

  /** One line for each covered component, in order. */
  function BaseLines(components: Components, covered: seq<string>): string
    requires forall n :: n in covered ==> n in components
  {
    if covered == [] then ""
    else
      var last := covered[|covered| - 1];
      BaseLines(components, covered[..|covered| - 1]) + (Headed(last, components[last]) + "\n")
  }

  lemma LineForm(name: string, value: string)
    ensures Line(name, value) == Headed(name, value) + "\n"
    ensures LastLine(value) == Headed("@signature-params", value)
  {
    assert "\": " == "\"" + ": ";
    assert "\"@signature-params\": " == "\"" + "@signature-params" + "\"" + ": ";
  }

  lemma {:induction false} FirstLineFirst(components: Components, covered: seq<string>)
    requires covered != [] && forall n :: n in covered ==> n in components
    ensures BaseLines(components, covered)
         == (Headed(covered[0], components[covered[0]]) + "\n") + BaseLines(components, covered[1..])
    decreases |covered|
  {
    var first, last := covered[0], covered[|covered| - 1];
    hide Headed;
    if |covered| == 1 {
      assert covered[..0] == [] && covered[1..] == [];
    } else {
      var front, rest := covered[..|covered| - 1], covered[1..];
      FirstLineFirst(components, front);
      assert front[1..] == rest[..|rest| - 1] && rest[|rest| - 1] == last;
      hide BaseLines;
      SignatureAuthenticity.Associates(Headed(first, components[first]) + "\n", BaseLines(components, front[1..]),
                                       Headed(last, components[last]) + "\n");
    }
  }

  /**
   The signed text, exactly: a line for each covered component, in order, and then the
   parameters under their own name.
   */
  lemma {:induction false} BaseExactly(components: Components, covered: seq<string>, params: string)
    requires forall n :: n in covered ==> n in components
    ensures SignatureBase(components, covered, params)
         == Ok(BaseLines(components, covered) + Headed("@signature-params", params))
    decreases |covered|
  {
    var tail := Headed("@signature-params", params);
    LineForm("", params);
    if covered == [] {
      assert "" + tail == tail;
    } else {
      var first, rest := covered[0], covered[1..];
      LineForm(first, components[first]);
      hide Headed, Line, LastLine;
      BaseExactly(components, rest, params);
      FirstLineFirst(components, covered);
      hide BaseLines;
      SignatureAuthenticity.Associates(Line(first, components[first]), BaseLines(components, rest), tail);
    }
  }

  /** Without some component, the first one that is absent is named. */
  lemma {:induction false} AbsentIsNamed(components: Components, covered: seq<string>, params: string, i: nat)
    requires i < |covered| && covered[i] !in components && forall j :: 0 <= j < i ==> covered[j] in components
    ensures SignatureBase(components, covered, params) == Err(Malformed(AbsentComponent(covered[i])))
    decreases i
  {
    if i > 0 {
      AbsentIsNamed(components, covered[1..], params, i - 1);
    }
  }

  // ---- Members and digests ---------------------------------------------------------------------------

  /** The first member of this name has this value. */
  ghost predicate IsFirstOf(members: seq<Dictionary.Member>, name: string, value: string) {
    exists i :: 0 <= i < |members| && members[i] == (name, value) && forall j :: 0 <= j < i ==> members[j].0 != name
  }

  lemma {:induction false} LookupExactly(members: seq<Dictionary.Member>, name: string, value: string)
    ensures Lookup(members, name) == Some(value) <==> IsFirstOf(members, name, value)
    decreases |members|
  {
    if members != [] {
      var rest := members[1..];
      LookupExactly(rest, name, value);
      assert forall j :: 0 < j < |members| ==> members[j] == rest[j - 1];
      if members[0].0 != name {
        if IsFirstOf(rest, name, value) {
          var i :| 0 <= i < |rest| && rest[i] == (name, value) && forall j :: 0 <= j < i ==> rest[j].0 != name;
          assert members[i + 1] == (name, value);
        }
        if IsFirstOf(members, name, value) {
          var i :| 0 <= i < |members| && members[i] == (name, value) && forall j :: 0 <= j < i ==> members[j].0 != name;
          assert rest[i - 1] == (name, value) && forall j :: 0 <= j < i - 1 ==> rest[j] == members[j + 1];
        }
      }
    }
  }

  /** A digest header is accepted if and only if its first sha-256 member carries the hash of the body. */
  lemma DigestExactly(hash: seq<Base64.byte> -> seq<Base64.byte>, header: string, body: seq<Base64.byte>)
    ensures VerifyContentDigest(hash, header, body).Ok? <==>
              && Dictionary.Parse(header).Ok?
              && exists value: string ::
                   IsFirstOf(Dictionary.Parse(header).value, "sha-256", value) && ByteSequence(value) == Some(hash(body))
    ensures Dictionary.Parse(header).Ok? && VerifyContentDigest(hash, header, body).Err? ==>
              VerifyContentDigest(hash, header, body) == Err(DigestMismatch)
  {
    if Dictionary.Parse(header).Ok? {
      var members := Dictionary.Parse(header).value;
      forall value: string {
        LookupExactly(members, "sha-256", value);
      }
    }
    hide Dictionary.Parse, ByteSequence, Lookup, IsFirstOf;
  }
}
