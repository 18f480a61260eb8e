/**
 The inner list and parameters of one `Signature-Input` member, as section 2.3 of
 RFC 9421 prints them: `("@method" "@path");created=1;keyid="k"`.
 */
module SignatureParams {
  import opened Wrappers
  import opened Text
  import Decimal

  datatype ParamError =
    | NotInnerList
    | Unterminated
    | NotQuoted
    | NotString(name: string)
    | NotInteger(name: string)
    | KeyidRequired

  datatype Params = Params(covered: seq<string>, created: Option<int>, expires: Option<int>,
                           keyid: string, alg: Option<string>)

  function Unquote(s: string): Option<string> {
    match StripPrefix(s, '"')
    case None => None
    case Some(rest) => StripSuffix(rest, '"')
  }

  /** Quoted component names; anything after the closing quote is refused. */
  function Names(words: seq<string>): Result<seq<string>, ParamError> {
    if words == [] then Ok([]) else
      match Unquote(words[0])
      case None => Err(NotQuoted)
      case Some(name) =>
        match Names(words[1..])
        case Err(e) => Err(e)
        case Ok(rest) => Ok([name] + rest)
  }

  /** A parameter without `=` has the value true. */
  function NameAndValue(param: string): (string, string) {
    match SplitOnce(param, '=')
    case None => (param, "?1")
    case Some(nv) => nv
  }

  function Apply(p: Params, param: string): Result<Params, ParamError> {
    var (name, value) := NameAndValue(param);
    if name == "created" || name == "expires" then
      match Decimal.ParseI64(value)
      case None => Err(NotInteger(name))
      case Some(n) => Ok(if name == "created" then p.(created := Some(n)) else p.(expires := Some(n)))
    else if name == "keyid" || name == "alg" then
      match Unquote(value)
      case None => Err(NotString(name))
      case Some(text) => Ok(if name == "keyid" then p.(keyid := text) else p.(alg := Some(text)))
    else Ok(p)
  }

  function ApplyAll(p: Params, params: seq<string>): Result<Params, ParamError>
    decreases |params|
  {
    if params == [] then Ok(p) else
      var param := Trim(params[0]);
      if param == "" then ApplyAll(p, params[1..]) else
        match Apply(p, param)
        case Err(e) => Err(e)
        case Ok(next) => ApplyAll(next, params[1..])
  }

  function Parse(raw: string): Result<Params, ParamError> {
    match StripPrefix(Trim(raw), '(')
    case None => Err(NotInnerList)
    case Some(rest) =>
      match SplitOnce(rest, ')')
      case None => Err(Unterminated)
      case Some(parts) =>
        match Names(Words(parts.0))
        case Err(e) => Err(e)
        case Ok(names) =>
          match ApplyAll(Params(names, None, None, "", None), Split(parts.1, ';'))
          case Err(e) => Err(e)
          case Ok(p) => if p.keyid == "" then Err(KeyidRequired) else Ok(p)
  }

  /** The covered list, name by name. */
  method ReadNames(words: seq<string>) returns (result: Result<seq<string>, ParamError>)
    ensures result == Names(words)
  {
    hide Unquote;
    var covered: seq<string> := [];
    var i := 0;
    assert words[0..] == words;
    assert Names(words).Ok? ==> [] + Names(words).value == Names(words).value;
    while i < |words|
      invariant 0 <= i <= |words|
      invariant Names(words) == match Names(words[i..]) case Ok(rest) => Ok(covered + rest) case Err(e) => Err(e)
    {
      assert words[i..][1..] == words[i + 1..];
      var name := Unquote(words[i]);
      i := i + 1;
      if name.None? {
        return Err(NotQuoted);
      }
      ghost var before := covered;
      covered := covered + [name.value];
      if Names(words[i..]).Ok? {
        assert covered + Names(words[i..]).value == before + ([name.value] + Names(words[i..]).value);
      }
    }
    assert covered + [] == covered;
    return Ok(covered);
  }

  /** The parameters after the list, each filling its field of the record. */
  method ReadParameters(covered: seq<string>, params: seq<string>) returns (result: Result<Params, ParamError>)
    ensures result == ApplyAll(Params(covered, None, None, "", None), params)
  {
    hide Trim, SplitOnce, Unquote, NameAndValue, Decimal.ParseI64;
    var created, expires: Option<int> := None, None;
    var keyid := "";
    var alg: Option<string> := None;
    ghost var start := Params(covered, None, None, "", None);
    var i := 0;
    assert params[0..] == params;
    while i < |params|
      invariant 0 <= i <= |params|
      invariant ApplyAll(start, params) == ApplyAll(Params(covered, created, expires, keyid, alg), params[i..])
    {
      assert params[i..][1..] == params[i + 1..];
      var param := Trim(params[i]);
      i := i + 1;
      if param == "" {
        continue;
      }
      var (name, value) := NameAndValue(param);
      if name == "created" || name == "expires" {
        var number := Decimal.ParseI64(value);
        if number.None? {
          return Err(NotInteger(name));
        }
        if name == "created" {
          created := number;
        } else {
          expires := number;
        }
      } else if name == "keyid" || name == "alg" {
        var text := Unquote(value);
        if text.None? {
          return Err(NotString(name));
        }
        if name == "keyid" {
          keyid := text.value;
        } else {
          alg := text;
        }
      }
    }
    return Ok(Params(covered, created, expires, keyid, alg));
  }

  /** The parser as it runs. */
  method ParseSignatureParams(raw: string) returns (result: Result<Params, ParamError>)
    ensures result == Parse(raw)
  {
    hide Trim, SplitOnce, StripPrefix, Words, Split, Names, ApplyAll;
    var inner := StripPrefix(Trim(raw), '(');
    if inner.None? {
      return Err(NotInnerList);
    }
    var parts := SplitOnce(inner.value, ')');
    if parts.None? {
      return Err(Unterminated);
    }
    var covered := ReadNames(Words(parts.value.0));
    if covered.Err? {
      return Err(covered.error);
    }
    result := ReadParameters(covered.value, Split(parts.value.1, ';'));
    if result.Ok? && result.value.keyid == "" {
      return Err(KeyidRequired);
    }
  }

  // ---- Printing -----------------------------------------------------------------

  function Quote(s: string): string {
    "\"" + s + "\""
  }

  function Quoted(names: seq<string>): seq<string> {
    seq(|names|, i requires 0 <= i < |names| => Quote(names[i]))
  }

  function ShowList(covered: seq<string>): string {
    "(" + Join(Quoted(covered), " ") + ")"
  }

  function CreatedText(created: int): string { "created=" + Decimal.ShowInt(created) }
  function KeyidText(kid: string): string { "keyid=" + Quote(kid) }
  function ExpiresText(expires: int): string { "expires=" + Decimal.ShowInt(expires) }

  function ShowTail(created: int, kid: string, expires: Option<int>): string {
    ";" + CreatedText(created) + ";" + KeyidText(kid)
    + (match expires case None => "" case Some(e) => ";" + ExpiresText(e))
  }

  function Show(covered: seq<string>, created: int, kid: string, expires: Option<int>): string {
    ShowList(covered) + ShowTail(created, kid, expires)
  }

  /** Names that print as quoted strings without escapes and do not close the list. */
  predicate CleanName(name: string) {
    NoWhitespace(name) && '"' !in name && '\\' !in name && ')' !in name
  }

  /** A kid that the parameter parser can yield. */
  predicate PlainKid(kid: string) {
    kid != "" && ';' !in kid
  }

  lemma UnquoteQuote(s: string)
    ensures Unquote(Quote(s)) == Some(s)
  {
    assert Quote(s)[1..] == s + "\"";
    assert (s + "\"")[..|s|] == s;
  }

  lemma {:induction false} NamesOfQuoted(names: seq<string>)
    ensures Names(Quoted(names)) == Ok(names)
    decreases |names|
  {
    if names != [] {
      NamesOfQuoted(names[1..]);
      assert Quoted(names)[1..] == Quoted(names[1..]);
      UnquoteQuote(names[0]);
      assert [names[0]] + names[1..] == names;
    }
  }

  lemma {:induction false} JoinAvoids(parts: seq<string>, c: char)
    requires c != ' ' && forall p :: p in parts ==> c !in p
    ensures c !in Join(parts, " ")
    decreases |parts|
  {
    if |parts| >= 1 {
      assert parts[0] in parts;
      if |parts| > 1 {
        assert forall p :: p in parts[1..] ==> p in parts;
        JoinAvoids(parts[1..], c);
      }
    }
  }

  lemma QuotedClean(names: seq<string>)
    requires forall n :: n in names ==> CleanName(n)
    ensures forall w :: w in Quoted(names) ==> w != "" && NoWhitespace(w) && ')' !in w
  {
    forall i | 0 <= i < |names|
      ensures var w := Quoted(names)[i]; w != "" && NoWhitespace(w) && ')' !in w
    {
      assert names[i] in names;
      assert forall c :: c in Quote(names[i]) ==> c == '"' || c in names[i];
    }
  }

  lemma ShowIntIsPlain(n: int)
    ensures forall c :: c in Decimal.ShowInt(n) ==> Decimal.IsDigit(c) || c == '-'
    ensures Decimal.ShowInt(n) != ""
    ensures Tight(Decimal.ShowInt(n)) && ';' !in Decimal.ShowInt(n)
  {
    var s := Decimal.ShowInt(n);
    assert forall c :: c in Decimal.ShowNat(if n < 0 then -n else n) ==> Decimal.IsDigit(c);
    assert s[0] in s && s[|s| - 1] in s;
  }

  lemma ApplyInteger(p: Params, name: string, n: int, rest: seq<string>)
    requires name == "created" || name == "expires"
    requires Decimal.I64_MIN <= n <= Decimal.I64_MAX
    ensures ApplyAll(p, [name + "=" + Decimal.ShowInt(n)] + rest)
         == ApplyAll(if name == "created" then p.(created := Some(n)) else p.(expires := Some(n)), rest)
  {
    var v := Decimal.ShowInt(n);
    var param := name + "=" + v;
    ShowIntIsPlain(n);
    assert param[|param| - 1] == v[|v| - 1];
    TrimTight(param);
    SplitOnceAt(name, '=', v);
    Decimal.ParsePrinted(n);
    assert ([param] + rest)[1..] == rest;
  }

  lemma ApplyKeyid(p: Params, kid: string, rest: seq<string>)
    ensures ApplyAll(p, [KeyidText(kid)] + rest) == ApplyAll(p.(keyid := kid), rest)
  {
    var param := "keyid" + "=" + Quote(kid);
    assert param == KeyidText(kid);
    assert param[|param| - 1] == '"';
    TrimTight(param);
    SplitOnceAt("keyid", '=', Quote(kid));
    UnquoteQuote(kid);
    assert ([param] + rest)[1..] == rest;
  }

  function Pieces(created: int, kid: string, expires: Option<int>): seq<string> {
    [CreatedText(created), KeyidText(kid)]
    + (match expires case None => [] case Some(e) => [ExpiresText(e)])
  }

  lemma TailIsJoined(created: int, kid: string, expires: Option<int>)
    ensures ShowTail(created, kid, expires) == Join([""] + Pieces(created, kid, expires), ";")
  {
    hide CreatedText, KeyidText, ExpiresText;
    var c, k := CreatedText(created), KeyidText(kid);
    var all := [""] + Pieces(created, kid, expires);
    assert all[1..] == Pieces(created, kid, expires);
    match expires
    case None =>
      assert all[1..] == [c, k] && [c, k][1..] == [k];
      assert Join([c, k], ";") == c + ";" + k;
      assert Join(all, ";") == "" + ";" + Join([c, k], ";");
    case Some(e) =>
      var x := ExpiresText(e);
      assert all[1..] == [c, k, x] && [c, k, x][1..] == [k, x] && [k, x][1..] == [x];
      assert Join([k, x], ";") == k + ";" + x;
      assert Join([c, k, x], ";") == c + ";" + Join([k, x], ";");
      assert Join(all, ";") == "" + ";" + Join([c, k, x], ";");
  }

  /** The parameters after the list, cut at the semicolons. */
  lemma SplitShown(created: int, kid: string, expires: Option<int>)
    requires PlainKid(kid)
    ensures Split(ShowTail(created, kid, expires), ';') == [""] + Pieces(created, kid, expires)
  {
    ShowIntIsPlain(created);
    if expires.Some? {
      ShowIntIsPlain(expires.value);
    }
    TailIsJoined(created, kid, expires);
    SplitOfJoin([""] + Pieces(created, kid, expires), ';');
  }

  lemma ApplyPieces(covered: seq<string>, created: int, kid: string, expires: Option<int>)
    requires Decimal.I64_MIN <= created <= Decimal.I64_MAX
    requires expires.Some? ==> Decimal.I64_MIN <= expires.value <= Decimal.I64_MAX
    ensures ApplyAll(Params(covered, None, None, "", None), [""] + Pieces(created, kid, expires))
         == Ok(Params(covered, Some(created), expires, kid, None))
  {
    hide Decimal.ShowInt, Quote, Apply;
    var p0 := Params(covered, None, None, "", None);
    var pieces := Pieces(created, kid, expires);
    assert ([""] + pieces)[1..] == pieces;
    TrimTight("");
    assert "created" + "=" == "created=" && "expires" + "=" == "expires=";
    var tail := pieces[2..];
    assert pieces == [CreatedText(created)] + ([KeyidText(kid)] + tail);
    ApplyInteger(p0, "created", created, [KeyidText(kid)] + tail);
    ApplyKeyid(p0.(created := Some(created)), kid, tail);
    if expires.Some? {
      assert tail == [ExpiresText(expires.value)] + [];
      ApplyInteger(p0.(created := Some(created), keyid := kid), "expires", expires.value, []);
    } else {
      assert tail == [];
    }
  }

  lemma ShowIsTight(covered: seq<string>, created: int, kid: string, expires: Option<int>)
    ensures Tight(Show(covered, created, kid, expires))
  {
    var raw := Show(covered, created, kid, expires);
    assert raw[0] == '(';
    if expires.Some? {
      var last := Decimal.ShowInt(expires.value);
      ShowIntIsPlain(expires.value);
      assert raw[|raw| - 1] == last[|last| - 1];
    } else {
      assert raw[|raw| - 1] == '"';
    }
  }

  /** What the signer prints, the verifier reads back field for field. */
  lemma ParseShown(covered: seq<string>, created: int, kid: string, expires: Option<int>)
    requires forall n :: n in covered ==> CleanName(n)
    requires PlainKid(kid)
    requires Decimal.I64_MIN <= created <= Decimal.I64_MAX
    requires expires.Some? ==> Decimal.I64_MIN <= expires.value <= Decimal.I64_MAX
    ensures Parse(Show(covered, created, kid, expires)) == Ok(Params(covered, Some(created), expires, kid, None))
  {
    hide ShowTail, Decimal.ShowInt, Quote, Apply, ApplyAll, Split, Pieces;
    var raw := Show(covered, created, kid, expires);
    var list := Join(Quoted(covered), " ");
    var tail := ShowTail(created, kid, expires);
    ShowIsTight(covered, created, kid, expires);
    TrimTight(raw);
    assert raw[0] == '(' && raw[1..] == list + [')'] + tail;
    QuotedClean(covered);
    JoinAvoids(Quoted(covered), ')');
    SplitOnceAt(list, ')', tail);
    WordsOfJoin(Quoted(covered));
    NamesOfQuoted(covered);
    SplitShown(created, kid, expires);
    ApplyPieces(covered, created, kid, expires);
  }

  // ---- What a parsed kid can look like --------------------------------------------

  lemma ApplyKeyidPlain(p: Params, param: string)
    requires Apply(p, param).Ok? && ';' !in p.keyid && ';' !in param
    ensures ';' !in Apply(p, param).value.keyid
  {
    SplitOnceParts(param, '=');
    hide Decimal.ParseI64, SplitOnce;
  }

  lemma {:induction false} ApplyAllKeyidPlain(p: Params, params: seq<string>)
    requires ApplyAll(p, params).Ok? && ';' !in p.keyid && forall x :: x in params ==> ';' !in x
    ensures ';' !in ApplyAll(p, params).value.keyid
    decreases |params|
  {
    hide Apply, Trim;
    if params != [] {
      var param := Trim(params[0]);
      assert params[0] in params;
      TrimWithin(params[0]);
      forall x | x in params[1..]
        ensures x in params
      {
      }
      if param == "" {
        ApplyAllKeyidPlain(p, params[1..]);
      } else {
        ApplyKeyidPlain(p, param);
        ApplyAllKeyidPlain(Apply(p, param).value, params[1..]);
      }
    }
  }

  /** A parsed kid is never empty and never contains a semicolon. */
  lemma ParsedKidIsPlain(raw: string)
    requires Parse(raw).Ok?
    ensures PlainKid(Parse(raw).value.keyid)
  {
    var parts := SplitOnce(StripPrefix(Trim(raw), '(').value, ')').value;
    SplitAvoids(parts.1, ';');
    ApplyAllKeyidPlain(Params(Names(Words(parts.0)).value, None, None, "", None), Split(parts.1, ';'));
  }

  // ---- What a parsed name can look like -------------------------------------------

  lemma {:induction false} NamesHaveNoWhitespace(words: seq<string>)
    requires Names(words).Ok? && forall w :: w in words ==> NoWhitespace(w)
    ensures forall n :: n in Names(words).value ==> NoWhitespace(n)
    decreases |words|
  {
    if words != [] {
      assert words[0] in words;
      var name := Unquote(words[0]).value;
      assert forall c :: c in name ==> c in words[0];
      assert forall w :: w in words[1..] ==> w in words;
      NamesHaveNoWhitespace(words[1..]);
    }
  }

  lemma {:induction false} ApplyAllKeepsCovered(p: Params, params: seq<string>)
    requires ApplyAll(p, params).Ok?
    ensures ApplyAll(p, params).value.covered == p.covered
    decreases |params|
  {
    if params != [] {
      var param := Trim(params[0]);
      ApplyAllKeepsCovered(if param == "" then p else Apply(p, param).value, params[1..]);
    }
  }

  /** Every component name the parser yields is free of whitespace. */
  lemma ParsedNamesAreWords(raw: string)
    requires Parse(raw).Ok?
    ensures forall n :: n in Parse(raw).value.covered ==> NoWhitespace(n)
  {
    var parts := SplitOnce(StripPrefix(Trim(raw), '(').value, ')').value;
    WordsAreClean(parts.0);
    NamesHaveNoWhitespace(Words(parts.0));
    ApplyAllKeepsCovered(Params(Names(Words(parts.0)).value, None, None, "", None), Split(parts.1, ';'));
  }
}
