/**
 HTTP message signatures (RFC 9421): the signature base, the signer's header values
 and the verifier. The signature algorithms themselves are parameters.
 */
module MessageSignatures {
  import opened Wrappers
  import opened Text
  import Base64
  import Dictionary
  import SignatureParams

  type byte = Base64.byte

  /** The algorithms behind a keyring: secret keys `K`, public keys `P`. */
  datatype Scheme<!K, !P> = Scheme(
    sign: (K, string) -> seq<byte>,
    verify: (P, string, seq<byte>) -> bool,
    publicKey: K -> P,
    algorithm: P -> string)

  /** What a signature algorithm promises for one key. */
  ghost predicate Sound<K, P>(scheme: Scheme<K, P>, key: K) {
    forall m: string :: scheme.verify(scheme.publicKey(key), m, scheme.sign(key, m))
  }

  datatype Malformation =
    | Field(field: Dictionary.FieldError)
    | Parameter(parameter: SignatureParams.ParamError)
    | AbsentComponent(name: string)

  datatype SignatureError =
    | Missing
    | Malformed(reason: Malformation)
    | CoverageInsufficient(name: string)
    | Stale(skewSeconds: int)
    | Expired
    | KeyNotFound(kid: string)
    | AlgorithmUnsupported(alg: string)
    | DigestMismatch
    | VerificationFailed

  const SIGNATURE_LABEL := "sig1"
  const MAX_SIGNATURE_SKEW_SECONDS := 300

  /** Component values of one message, by lowercased name. */
  type Components = map<string, string>

  // ---- Signature base -------------------------------------------------------------

  function Line(name: string, value: string): string {
    "\"" + name + "\": " + value + "\n"
  }

  function LastLine(params: string): string {
    "\"@signature-params\": " + params
  }

  function SignatureBase(components: Components, covered: seq<string>, params: string): Result<string, SignatureError> {
    if covered == [] then Ok(LastLine(params))
    else if covered[0] !in components then Err(Malformed(AbsentComponent(covered[0])))
    else
      match SignatureBase(components, covered[1..], params)
      case Err(e) => Err(e)
      case Ok(rest) => Ok(Line(covered[0], components[covered[0]]) + rest)
  }

  method BuildSignatureBase(components: Components, covered: seq<string>, params: string)
    returns (result: Result<string, SignatureError>)
    ensures result == SignatureBase(components, covered, params)
  {
    var base := "";
    var i := 0;
    assert covered[0..] == covered;
    ghost var whole := SignatureBase(components, covered, params);
    assert whole.Ok? ==> "" + whole.value == whole.value;
    while i < |covered|
      invariant 0 <= i <= |covered|
      invariant whole == match SignatureBase(components, covered[i..], params)
                         case Ok(rest) => Ok(base + rest)
                         case Err(e) => Err(e)
    {
      assert covered[i..][1..] == covered[i + 1..];
      var name := covered[i];
      i := i + 1;
      if name !in components {
        return Err(Malformed(AbsentComponent(name)));
      }
      ghost var before := base;
      base := base + Line(name, components[name]);
      assert forall rest: string :: base + rest == before + (Line(name, components[name]) + rest);
    }
    return Ok(base + LastLine(params));
  }

  // ---- Signer ------------------------------------------------------------------------

  datatype SignedMessage = SignedMessage(signatureInput: string, signature: string)

  function SignMessage<K, P>(scheme: Scheme<K, P>, key: K, kid: string, components: Components,
                             covered: seq<string>, created: int, expires: Option<int>)
    : Result<SignedMessage, SignatureError>
  {
    var params := SignatureParams.Show(covered, created, kid, expires);
    match SignatureBase(components, covered, params)
    case Err(e) => Err(e)
    case Ok(base) =>
      Ok(SignedMessage(SIGNATURE_LABEL + "=" + params,
                       SIGNATURE_LABEL + "=" + ":" + Base64.Encode(scheme.sign(key, base)) + ":"))
  }

  // ---- Verifier -------------------------------------------------------------------------

  type Keyring<P> = seq<(string, P)>

  function FindKey<P>(ring: Keyring<P>, kid: string): Option<P> {
    if ring == [] then None
    else if ring[0].0 == kid then Some(ring[0].1)
    else FindKey(ring[1..], kid)
  }

  /** First required component that is not covered. */
  function FirstMissing(required: seq<string>, covered: seq<string>): (r: Option<string>)
    ensures r.None? <==> forall n :: n in required ==> n in covered
    ensures r.Some? ==> r.value in required && r.value !in covered
  {
    if required == [] then None
    else if required[0] !in covered then Some(required[0])
    else
      assert forall n :: n in required <==> n == required[0] || n in required[1..];
      FirstMissing(required[1..], covered)
  }

  /** The value of the first member with this name. */
  function Lookup(members: seq<Dictionary.Member>, name: string): Option<string> {
    if members == [] then None
    else if members[0].0 == name then Some(members[0].1)
    else Lookup(members[1..], name)
  }

  /** `:base64:`, ignoring whatever follows the closing colon. */
  function ByteSequence(value: string): Option<seq<byte>> {
    match StripPrefix(Trim(value), ':')
    case None => None
    case Some(inner) =>
      match SplitOnce(inner, ':')
      case None => None
      case Some(parts) => Base64.Decode(parts.0)
  }

  function Abs(n: int): nat {
    if n < 0 then -n else n
  }

  function VerifyOne<K, P>(scheme: Scheme<K, P>, ring: Keyring<P>, components: Components, rawParams: string,
                           signature: Option<string>, required: seq<string>, now: int): Result<string, SignatureError>
  {
    match SignatureParams.Parse(rawParams)
    case Err(e) => Err(Malformed(Parameter(e)))
    case Ok(params) =>
      var missing := FirstMissing(required, params.covered);
      if missing.Some? then Err(CoverageInsufficient(missing.value))
      else if params.created.Some? && Abs(now - params.created.value) > MAX_SIGNATURE_SKEW_SECONDS then
        Err(Stale(now - params.created.value))
      else if params.expires.Some? && now > params.expires.value then Err(Expired)
      else
        match FindKey(ring, params.keyid)
        case None => Err(KeyNotFound(params.keyid))
        case Some(key) =>
          if params.alg.Some? && params.alg.value != scheme.algorithm(key) then
            Err(AlgorithmUnsupported(params.alg.value))
          else
            var bytes := if signature.None? then None else ByteSequence(signature.value);
            if bytes.None? then Err(Missing)
            else
              match SignatureBase(components, params.covered, rawParams)
              case Err(e) => Err(e)
              case Ok(base) =>
                if scheme.verify(key, base, bytes.value) then Ok(params.keyid) else Err(VerificationFailed)
  }

  /** The result for the label at position `i`. */
  function VerifyAt<K, P>(scheme: Scheme<K, P>, ring: Keyring<P>, components: Components,
                          inputs: seq<Dictionary.Member>, signatures: seq<Dictionary.Member>,
                          required: seq<string>, now: int, i: nat): Result<string, SignatureError>
    requires i < |inputs|
  {
    VerifyOne(scheme, ring, components, inputs[i].1, Lookup(signatures, inputs[i].0), required, now)
  }

  /** Labels from position `i` on, given the first error seen so far. */
  function VerifyFrom<K, P>(scheme: Scheme<K, P>, ring: Keyring<P>, components: Components,
                            inputs: seq<Dictionary.Member>, signatures: seq<Dictionary.Member>,
                            required: seq<string>, now: int, i: nat, firstError: Option<SignatureError>)
    : Result<string, SignatureError>
    requires i <= |inputs|
    decreases |inputs| - i
  {
    if i == |inputs| then Err(if firstError.Some? then firstError.value else Missing)
    else
      match VerifyAt(scheme, ring, components, inputs, signatures, required, now, i)
      case Ok(kid) => Ok(kid)
      case Err(e) =>
        VerifyFrom(scheme, ring, components, inputs, signatures, required, now, i + 1,
                   if firstError.Some? then firstError else Some(e))
  }

  function Verify<K, P>(scheme: Scheme<K, P>, ring: Keyring<P>, components: Components, signatureInput: string,
                        signature: string, required: seq<string>, now: int): Result<string, SignatureError>
  {
    match Dictionary.Parse(signatureInput)
    case Err(e) => Err(Malformed(Field(e)))
    case Ok(inputs) =>
      match Dictionary.Parse(signature)
      case Err(e) => Err(Malformed(Field(e)))
      case Ok(signatures) =>
        if inputs == [] || signatures == [] then Err(Missing)
        else VerifyFrom(scheme, ring, components, inputs, signatures, required, now, 0, None)
  }

  /**
   The verifier's loop: the first label that verifies decides; when none does, the
   error of the first label is the answer.
   */
  method VerifyMessage<K, P>(scheme: Scheme<K, P>, ring: Keyring<P>, components: Components, signatureInput: string,
                             signature: string, required: seq<string>, now: int)
    returns (result: Result<string, SignatureError>)
    ensures result == Verify(scheme, ring, components, signatureInput, signature, required, now)
  {
    var inputs := Dictionary.ParseDictionary(signatureInput);
    if inputs.Err? {
      return Err(Malformed(Field(inputs.error)));
    }
    var signatures := Dictionary.ParseDictionary(signature);
    if signatures.Err? {
      return Err(Malformed(Field(signatures.error)));
    }
    if inputs.value == [] || signatures.value == [] {
      return Err(Missing);
    }
    var firstError: Option<SignatureError> := None;
    var i := 0;
    while i < |inputs.value|
      invariant 0 <= i <= |inputs.value|
      invariant VerifyFrom(scheme, ring, components, inputs.value, signatures.value, required, now, 0, None)
             == VerifyFrom(scheme, ring, components, inputs.value, signatures.value, required, now, i, firstError)
    {
      var (name, rawParams) := inputs.value[i];
      var one := VerifyOne(scheme, ring, components, rawParams, Lookup(signatures.value, name), required, now);
      if one.Ok? {
        return one;
      }
      if firstError.None? {
        firstError := Some(one.error);
      }
      i := i + 1;
    }
    return Err(if firstError.Some? then firstError.value else Missing);
  }

  /**
   Acceptance is exactly "some label verifies and every earlier label fails"; a
   rejection of parsed headers reports the first label's own error.
   */
  lemma {:induction false} VerifyFromOutcome<K, P>(
    scheme: Scheme<K, P>, ring: Keyring<P>, components: Components, inputs: seq<Dictionary.Member>,
    signatures: seq<Dictionary.Member>, required: seq<string>, now: int, i: nat, firstError: Option<SignatureError>)
    requires i <= |inputs|
    ensures var r := VerifyFrom(scheme, ring, components, inputs, signatures, required, now, i, firstError);
            r.Ok? <==> exists j | i <= j < |inputs| ::
                         VerifyAt(scheme, ring, components, inputs, signatures, required, now, j).Ok?
    ensures var r := VerifyFrom(scheme, ring, components, inputs, signatures, required, now, i, firstError);
            r.Ok? ==> exists j | i <= j < |inputs| ::
                        && VerifyAt(scheme, ring, components, inputs, signatures, required, now, j) == r
                        && forall k | i <= k < j ::
                             VerifyAt(scheme, ring, components, inputs, signatures, required, now, k).Err?
    ensures var r := VerifyFrom(scheme, ring, components, inputs, signatures, required, now, i, firstError);
            r.Err? && i < |inputs| ==>
              r == if firstError.Some? then Err(firstError.value)
                   else VerifyAt(scheme, ring, components, inputs, signatures, required, now, i)
    decreases |inputs| - i
  {
    hide VerifyAt;
    if i < |inputs| {
      var here := VerifyAt(scheme, ring, components, inputs, signatures, required, now, i);
      if here.Err? {
        VerifyFromOutcome(scheme, ring, components, inputs, signatures, required, now, i + 1,
                          if firstError.Some? then firstError else Some(here.error));
      }
    }
  }

  // ---- Body digests (RFC 9530) ------------------------------------------------------------

  function ContentDigest(hash: seq<byte> -> seq<byte>, body: seq<byte>): string {
    "sha-256" + "=" + ":" + Base64.Encode(hash(body)) + ":"
  }

  function VerifyContentDigest(hash: seq<byte> -> seq<byte>, header: string, body: seq<byte>)
    : Result<(), SignatureError>
  {
    match Dictionary.Parse(header)
    case Err(e) => Err(Malformed(Field(e)))
    case Ok(members) =>
      match Lookup(members, "sha-256")
      case None => Err(DigestMismatch)
      case Some(value) => if ByteSequence(value) == Some(hash(body)) then Ok(()) else Err(DigestMismatch)
  }
}
