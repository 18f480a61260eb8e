/**
 What the reader of signature parameters makes of a member, said of its text: which
 parameter counts, what is ignored, and what is refused and as what.
 */
module ParameterGrammar {
  import opened Wrappers
  import opened Text
  import opened SignatureParams
  import Decimal

  /** The parameter has this name, with or without a value. */
  predicate Names(param: string, name: string) {
    Trim(param) == name || (name + "=") <= Trim(param)
  }

  /** What stands behind the name and the equals sign. */
  function ValueOf(param: string, name: string): Option<string> {
    var text := Trim(param);
    if (name + "=") <= text then Some(text[|name| + 1..]) else None
  }

  /** The value is a quoted text. */
  predicate IsQuoted(value: string) {
    |value| >= 2 && value[0] == '"' && value[|value| - 1] == '"'
  }

  predicate IsInteger(param: string, name: string) {
    ValueOf(param, name).Some? && Decimal.ParseI64(ValueOf(param, name).value).Some?
  }

  predicate IsText(param: string, name: string) {
    ValueOf(param, name).Some? && IsQuoted(ValueOf(param, name).value)
  }

  /** The four known parameters carry values of their kinds; anything may be said by the others. */
  predicate WellTyped(param: string) {
    && (Names(param, "created") ==> IsInteger(param, "created"))
    && (Names(param, "expires") ==> IsInteger(param, "expires"))
    && (Names(param, "keyid") ==> IsText(param, "keyid"))
    && (Names(param, "alg") ==> IsText(param, "alg"))
  }

  /** The last parameter of this name. */
  predicate IsLast(params: seq<string>, name: string, i: nat) {
    i < |params| && Names(params[i], name) && forall j :: i < j < |params| ==> !Names(params[j], name)
  }

  predicate Unnamed(params: seq<string>, name: string) {
    forall i :: 0 <= i < |params| ==> !Names(params[i], name)
  }

  /** The field is the integer of the last parameter of its name, and empty without one. */
  ghost predicate HasInteger(params: seq<string>, name: string, field: Option<int>) {
    && (forall i: nat :: IsLast(params, name, i) ==>
          ValueOf(params[i], name).Some? && field == Decimal.ParseI64(ValueOf(params[i], name).value))
    && (Unnamed(params, name) ==> field == None)
  }

  ghost predicate HasText(params: seq<string>, name: string, field: Option<string>) {
    && (forall i: nat :: IsLast(params, name, i) ==>
          field.Some? && ValueOf(params[i], name) == Some("\"" + field.value + "\""))
    && (Unnamed(params, name) ==> field == None)
  }

  /** What the parameters say, told by the last of each name. */
  ghost predicate Says(params: seq<string>, p: Params) {
    && (forall i :: 0 <= i < |params| ==> WellTyped(params[i]))
    && HasInteger(params, "created", p.created)
    && HasInteger(params, "expires", p.expires)
    && HasText(params, "keyid", if Unnamed(params, "keyid") then None else Some(p.keyid))
    && (Unnamed(params, "keyid") ==> p.keyid == "")
    && HasText(params, "alg", p.alg)
  }

  // ---- One parameter ---------------------------------------------------------------------------

  lemma UnquoteExactly(value: string)
    ensures Unquote(value).Some? <==> IsQuoted(value)
    ensures Unquote(value).Some? ==> value == "\"" + Unquote(value).value + "\""
  {
    if Unquote(value).Some? {
      var inner := value[1..];
      assert inner == inner[..|inner| - 1] + [inner[|inner| - 1]];
    }
  }

  /** Reading up to the first equals sign finds the name a parameter has. */
  lemma NameIsFound(param: string, name: string)
    requires '=' !in name
    ensures var (n, v) := NameAndValue(Trim(param));
            && (Names(param, name) <==> n == name)
            && (n == name ==> (if ValueOf(param, name).Some? then ValueOf(param, name).value == v else v == "?1"))
  {
    var text := Trim(param);
    SplitOnceParts(text, '=');
    if (name + "=") <= text {
      SplitOnceAt(name, '=', text[|name| + 1..]);
      assert text == name + "=" + text[|name| + 1..];
    }
    hide Trim;
    if SplitOnce(text, '=').Some? {
      var (n, v) := SplitOnce(text, '=').value;
      assert text[..|n|] == n && text[|n|] == '=' && text[|n| + 1..] == v;
    }
    hide SplitOnce;
  }

  /** The parameter is none of the four. */
  predicate Foreign(param: string) {
    !Names(param, "created") && !Names(param, "expires") && !Names(param, "keyid") && !Names(param, "alg")
  }

  lemma FirstDiffers(a: string, b: string)
    requires a != "" && b != "" && a[0] != b[0]
    ensures a != b
  {
  }

  lemma OneName(param: string, a: string, b: string)
    requires '=' !in a && '=' !in b && Names(param, a) && Names(param, b)
    ensures a == b
  {
    NameIsFound(param, a);
    NameIsFound(param, b);
  }

  /** One parameter, by its name: it fills its field, is refused, or is passed over. */
  lemma OneParameter(p: Params, param: string)
    ensures var r, text := ApplyAll(p, [param]), Trim(param);
            && (Foreign(param) ==> r == Ok(p))
            && (Names(param, "created") ==>
                  r == if IsInteger(param, "created") then Ok(p.(created := Decimal.ParseI64(ValueOf(param, "created").value)))
                       else Err(NotInteger("created")))
            && (Names(param, "expires") ==>
                  r == if IsInteger(param, "expires") then Ok(p.(expires := Decimal.ParseI64(ValueOf(param, "expires").value)))
                       else Err(NotInteger("expires")))
            && (Names(param, "keyid") ==>
                  if IsText(param, "keyid")
                  then Unquote(ValueOf(param, "keyid").value).Some?
                       && r == Ok(p.(keyid := Unquote(ValueOf(param, "keyid").value).value))
                  else r == Err(NotString("keyid")))
            && (Names(param, "alg") ==>
                  r == if IsText(param, "alg") then Ok(p.(alg := Unquote(ValueOf(param, "alg").value)))
                       else Err(NotString("alg")))
  {
    var text := Trim(param);
    assert [param][1..] == [];
    NameIsFound(param, "created");
    NameIsFound(param, "expires");
    NameIsFound(param, "keyid");
    NameIsFound(param, "alg");
    BareIsNothing();
    hide Trim, NameAndValue, Decimal.ParseI64, Names;
    if ValueOf(param, "keyid").Some? {
      UnquoteExactly(ValueOf(param, "keyid").value);
    }
    if ValueOf(param, "alg").Some? {
      UnquoteExactly(ValueOf(param, "alg").value);
    }
    hide Unquote, IsQuoted, ValueOf;
  }

  /** The value true is no integer and no quoted text. */
  lemma BareIsNothing()
    ensures Decimal.ParseI64("?1").None? && Unquote("?1").None?
  {
    assert "?1"[0] in "?1";
  }

  // ---- All of them -----------------------------------------------------------------------------------

  lemma {:induction false} ApplyAllConcat(p: Params, a: seq<string>, b: seq<string>)
    ensures ApplyAll(p, a + b) == match ApplyAll(p, a) case Err(e) => Err(e) case Ok(q) => ApplyAll(q, b)
    decreases |a|
  {
    hide Apply, Trim;
    if a == [] {
      assert a + b == b;
    } else {
      assert (a + b)[1..] == a[1..] + b;
      var param := Trim(a[0]);
      if param == "" {
        ApplyAllConcat(p, a[1..], b);
      } else if Apply(p, param).Ok? {
        ApplyAllConcat(Apply(p, param).value, a[1..], b);
      }
    }
  }

  lemma LastThen(params: seq<string>, param: string, name: string)
    ensures var all := params + [param];
            && (Unnamed(all, name) <==> Unnamed(params, name) && !Names(param, name))
            && (Names(param, name) ==> forall i: nat :: IsLast(all, name, i) ==> i == |params|)
            && (!Names(param, name) ==> forall i: nat :: IsLast(all, name, i) ==> IsLast(params, name, i))
  {
    var all := params + [param];
    assert all[|params|] == param && forall j :: 0 <= j < |params| ==> all[j] == params[j];
    hide Names;
  }

  lemma IntegerThen(params: seq<string>, param: string, name: string, field: Option<int>)
    requires HasInteger(params, name, field)
    ensures !Names(param, name) ==> HasInteger(params + [param], name, field)
    ensures Names(param, name) && IsInteger(param, name) ==>
              HasInteger(params + [param], name, Decimal.ParseI64(ValueOf(param, name).value))
  {
    LastThen(params, param, name);
    hide Names, ValueOf, Decimal.ParseI64;
    assert (params + [param])[|params|] == param;
  }

  lemma TextThen(params: seq<string>, param: string, name: string, field: Option<string>)
    requires HasText(params, name, field)
    ensures !Names(param, name) ==> HasText(params + [param], name, field)
    ensures Names(param, name) && IsText(param, name) ==>
              HasText(params + [param], name, Unquote(ValueOf(param, name).value))
  {
    LastThen(params, param, name);
    if Names(param, name) && IsText(param, name) {
      UnquoteExactly(ValueOf(param, name).value);
    }
    hide Names, ValueOf, Unquote, IsQuoted;
    assert (params + [param])[|params|] == param;
  }

  lemma NamesApart(param: string)
    ensures Names(param, "created") ==> !Names(param, "expires") && !Names(param, "keyid") && !Names(param, "alg")
    ensures Names(param, "expires") ==> !Names(param, "keyid") && !Names(param, "alg")
    ensures Names(param, "keyid") ==> !Names(param, "alg")
  {
    NameIsFound(param, "created");
    NameIsFound(param, "expires");
    NameIsFound(param, "keyid");
    NameIsFound(param, "alg");
    hide Names, ValueOf, NameAndValue;
  }

  lemma SaysThen(params: seq<string>, p: Params, param: string)
    requires Says(params, p)
    ensures WellTyped(param) <==> ApplyAll(p, [param]).Ok?
    ensures WellTyped(param) ==> Says(params + [param], ApplyAll(p, [param]).value)
                                 && ApplyAll(p, [param]).value.covered == p.covered
  {
    OneParameter(p, param);
    NamesApart(param);
    hide Names, HasInteger, HasText, Unnamed, IsInteger, IsText, Unquote, Decimal.ParseI64, ApplyAll, ValueOf;
    if WellTyped(param) {
      FieldsThen(params, p, param, ApplyAll(p, [param]).value);
    }
  }

  lemma FieldsThen(params: seq<string>, p: Params, param: string, q: Params)
    requires Says(params, p) && WellTyped(param)
    requires q.created == if Names(param, "created") then Decimal.ParseI64(ValueOf(param, "created").value) else p.created
    requires q.expires == if Names(param, "expires") then Decimal.ParseI64(ValueOf(param, "expires").value) else p.expires
    requires Some(q.keyid) == if Names(param, "keyid") then Unquote(ValueOf(param, "keyid").value) else Some(p.keyid)
    requires q.alg == if Names(param, "alg") then Unquote(ValueOf(param, "alg").value) else p.alg
    ensures Says(params + [param], q)
  {
    LastThen(params, param, "keyid");
    IntegerThen(params, param, "created", p.created);
    IntegerThen(params, param, "expires", p.expires);
    TextThen(params, param, "keyid", if Unnamed(params, "keyid") then None else Some(p.keyid));
    TextThen(params, param, "alg", p.alg);
    hide Names, HasInteger, HasText, Unnamed, IsInteger, IsText, Unquote, Decimal.ParseI64, ValueOf;
    assert forall i :: 0 <= i < |params| ==> (params + [param])[i] == params[i];
  }

  lemma {:induction false} ParametersSay(covered: seq<string>, params: seq<string>)
    ensures var r := ApplyAll(Params(covered, None, None, "", None), params);
            && (r.Ok? <==> forall i :: 0 <= i < |params| ==> WellTyped(params[i]))
            && (r.Ok? ==> r.value.covered == covered && Says(params, r.value))
    decreases |params|
  {
    var start := Params(covered, None, None, "", None);
    if params != [] {
      var front, last := params[..|params| - 1], params[|params| - 1];
      assert params == front + [last];
      ParametersSay(covered, front);
      ApplyAllConcat(start, front, [last]);
      if ApplyAll(start, front).Ok? {
        SaysThen(front, ApplyAll(start, front).value, last);
      }
      hide ApplyAll, WellTyped, Says;
      assert forall i :: 0 <= i < |front| ==> front[i] == params[i];
    }
  }

  lemma {:induction false} LastExists(params: seq<string>, name: string) returns (i: nat)
    requires !Unnamed(params, name)
    ensures IsLast(params, name, i)
    decreases |params|
  {
    var front, last := params[..|params| - 1], params[|params| - 1];
    hide Names;
    if Names(last, name) {
      i := |front|;
    } else {
      i := LastExists(front, name);
    }
  }

  lemma SaysOnce(params: seq<string>, p: Params, q: Params)
    requires Says(params, p) && Says(params, q) && p.covered == q.covered
    ensures p == q
  {
    hide WellTyped, Names, ValueOf, Decimal.ParseI64, IsLast, Unnamed;
    if !Unnamed(params, "created") {
      var i := LastExists(params, "created");
    }
    if !Unnamed(params, "expires") {
      var i := LastExists(params, "expires");
    }
    if !Unnamed(params, "alg") {
      var i := LastExists(params, "alg");
      QuotesOnce(p.alg.value, q.alg.value);
    }
    if !Unnamed(params, "keyid") {
      var i := LastExists(params, "keyid");
      QuotesOnce(p.keyid, q.keyid);
    }
  }

  lemma QuotesOnce(a: string, b: string)
    requires "\"" + a + "\"" == "\"" + b + "\""
    ensures a == b
  {
    assert a == ("\"" + a + "\"")[1..|a| + 1];
    assert b == ("\"" + b + "\"")[1..|b| + 1];
  }

  /**
   The parameters, exactly. They are read as a record if and only if that record says what
   they say: every known one is of its kind, the last of each name counts, and a name that
   is not known, or a parameter that is blank, says nothing.
   */
  lemma ParametersExactly(covered: seq<string>, params: seq<string>, p: Params)
    ensures ApplyAll(Params(covered, None, None, "", None), params) == Ok(p)
       <==> p.covered == covered && Says(params, p)
  {
    ParametersSay(covered, params);
    var r := ApplyAll(Params(covered, None, None, "", None), params);
    if p.covered == covered && Says(params, p) {
      hide HasInteger, HasText;
      assert r.Ok?;
      hide Says;
      SaysOnce(params, p, r.value);
    }
  }

  /** The error says which known parameter comes first that is not of its kind, and what it should have been. */
  lemma {:induction false} FirstBadDecides(p: Params, params: seq<string>, i: nat)
    requires i < |params| && !WellTyped(params[i]) && forall j :: 0 <= j < i ==> WellTyped(params[j])
    ensures ApplyAll(p, params) == Err(if Names(params[i], "created") then NotInteger("created")
                                       else if Names(params[i], "expires") then NotInteger("expires")
                                       else if Names(params[i], "keyid") then NotString("keyid")
                                       else NotString("alg"))
    decreases i
  {
    var first, rest := params[0], params[1..];
    assert params == [first] + rest;
    hide ApplyAll, Names, IsInteger, IsText, ValueOf, Unquote, Decimal.ParseI64;
    ApplyAllConcat(p, [first], rest);
    OneParameter(p, first);
    if i > 0 {
      assert rest[i - 1] == params[i] && forall j :: 0 <= j < i - 1 ==> rest[j] == params[j + 1];
      assert WellTyped(first);
      FirstBadDecides(ApplyAll(p, [first]).value, rest, i - 1);
    }
  }

  // ---- The whole member ---------------------------------------------------------------------------------

  /** Every word is one of these names in quotes. */
  predicate AreQuoted(words: seq<string>, names: seq<string>) {
    |words| == |names| && forall i :: 0 <= i < |words| ==> words[i] == "\"" + names[i] + "\""
  }

  lemma {:induction false} NamesExactly(words: seq<string>, names: seq<string>)
    ensures SignatureParams.Names(words) == Ok(names) <==> AreQuoted(words, names)
    decreases |words|
  {
    if words == [] {
      assert AreQuoted(words, names) ==> names == [];
    } else {
      UnquoteExactly(words[0]);
      if names != [] {
        NamesExactly(words[1..], names[1..]);
        assert names == [names[0]] + names[1..];
        if words[0] == "\"" + names[0] + "\"" {
          UnquoteQuote(names[0]);
          assert words[0] == Quote(names[0]);
        }
        assert forall i :: 0 < i < |words| ==> words[i] == words[1..][i - 1];
        assert forall i :: 0 < i < |names| ==> names[i] == names[1..][i - 1];
      }
    }
  }

  /** The text is a parenthesised list of quoted names and, after semicolons, parameters that say this. */
  ghost predicate IsMember(raw: string, p: Params, list: string, tail: string) {
    && Trim(raw) == "(" + list + ")" + tail && ')' !in list
    && AreQuoted(Words(list), p.covered) && Says(Split(tail, ';'), p) && p.keyid != ""
  }

  /**
   A member, exactly: it is read as a record if and only if it is a list of quoted names up
   to the first closing parenthesis, followed by parameters that say that record and a
   keyid that is not empty.
   */
  lemma MemberExactly(raw: string, p: Params)
    ensures Parse(raw) == Ok(p) <==> exists list: string, tail: string :: IsMember(raw, p, list, tail)
  {
    var text := Trim(raw);
    if text != "" && text[0] == '(' {
      var rest := text[1..];
      SplitOnceParts(rest, ')');
      if SplitOnce(rest, ')').Some? {
        var (list, tail) := SplitOnce(rest, ')').value;
        assert text == "(" + list + ")" + tail;
        MemberParsed(raw, p, list, tail);
      }
    }
    forall list: string, tail: string | IsMember(raw, p, list, tail)
      ensures Parse(raw) == Ok(p)
    {
      MemberParsed(raw, p, list, tail);
    }
    hide Parse;
    NotListed(raw, p);
  }

  lemma NotListed(raw: string, p: Params)
    ensures !("(" <= Trim(raw)) ==> Parse(raw) == Err(NotInnerList)
    ensures "(" <= Trim(raw) && ')' !in Trim(raw)[1..] ==> Parse(raw) == Err(Unterminated)
  {
    hide Trim;
    if "(" <= Trim(raw) {
      SplitOnceParts(Trim(raw)[1..], ')');
    }
    hide SplitOnce;
  }

  lemma MemberParsed(raw: string, p: Params, list: string, tail: string)
    requires Trim(raw) == "(" + list + ")" + tail && ')' !in list
    ensures Parse(raw) == Ok(p) <==> IsMember(raw, p, list, tail)
  {
    var rest := list + [')'] + tail;
    assert Trim(raw)[1..] == rest;
    SplitOnceAt(list, ')', tail);
    NamesExactly(Words(list), p.covered);
    ParametersExactly(p.covered, Split(tail, ';'), p);
    hide Trim, SplitOnce, Words, Split, AreQuoted, Says, SignatureParams.Names;
    if SignatureParams.Names(Words(list)).Ok? {
      var names := SignatureParams.Names(Words(list)).value;
      ParametersSay(names, Split(tail, ';'));
    }
    hide ApplyAll;
  }
}
