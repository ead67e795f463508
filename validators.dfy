/**
 * Control validators: the two custom ones of the application (`minLengthCustom`,
 * `uniqueProjectNameValidator`) and the two framework validators the forms
 * use (`required`, `minLength`), as data with an evaluation function.
 */
module Validators {
  import opened JsValues

  /** The validator kinds a form descriptor can carry. */
  datatype Validator =
    | Required
    | MinLength(minLength: int)
    | MinLengthCustom(length: int)
      /** The project titles the uniqueness check compares against, as read when the check runs. */
    | UniqueName(titles: seq<string>)

  /** The error object a failing validator reports. */
  datatype ValidationError =
    | RequiredError
    | MinLengthError(requiredLength: int, actualLength: int)
    | MinLengthCustomError(requiredLength: int, actualLength: int)
    | ProjectNameExists

  // ---------------------------------------------------------------------------
  // String helpers: `trim` and `toLowerCase`
  // ---------------------------------------------------------------------------

  /** The characters `String.prototype.trim` removes (white space and line terminators). */
  predicate IsSpace(c: char)
  {
    var k := c as int;
    k == 0x20 || (0x09 <= k <= 0x0D) || k == 0xA0 || k == 0x1680 || (0x2000 <= k <= 0x200A)
    || k == 0x2028 || k == 0x2029 || k == 0x202F || k == 0x205F || k == 0x3000 || k == 0xFEFF
  }

  predicate AllSpace(s: string)
  {
    forall i | 0 <= i < |s| :: IsSpace(s[i])
  }

  /** `s` with its leading white space removed. */
  function TrimStart(s: string): (r: string)
    ensures |r| <= |s| && r == s[|s| - |r|..]
    ensures AllSpace(s[..|s| - |r|])
    ensures r == [] || !IsSpace(r[0])
  {
    if s != [] && IsSpace(s[0]) then TrimStart(s[1..]) else s
  }

  /** `s` with its trailing white space removed. */
  function TrimEnd(s: string): (r: string)
    ensures |r| <= |s| && r == s[..|r|]
    ensures AllSpace(s[|r|..])
    ensures r == [] || !IsSpace(r[|r| - 1])
  {
    if s != [] && IsSpace(s[|s| - 1]) then
      var init := s[..|s| - 1];
      var r := TrimEnd(init);
      assert init[..|r|] == s[..|r|];
      assert s[|r|..] == init[|r|..] + [s[|s| - 1]];
      r
    else s
  }

  /** `s.trim()`: `s` without its white-space ends (`TrimIsInfix` locates it inside `s`). */
  function Trim(s: string): (r: string)
    ensures |r| <= |s|
    ensures r == [] || (!IsSpace(r[0]) && !IsSpace(r[|r| - 1]))
    ensures r == [] <==> AllSpace(s)
  {
    var t := TrimStart(s);
    var r := TrimEnd(t);
    TrimmedEnds(s, |s| - |t|, t, r);
    r
  }

  /** The trimmed text is the infix of `s` between an all-white-space prefix and an all-white-space suffix. */
  lemma TrimIsInfix(s: string)
    ensures exists k | 0 <= k <= |s| - |Trim(s)| ::
      Trim(s) == s[k..k + |Trim(s)|] && AllSpace(s[..k]) && AllSpace(s[k + |Trim(s)|..])
  {
    var t := TrimStart(s);
    var r, k := TrimEnd(t), |s| - |t|;
    TrimmedEnds(s, k, t, r);
    assert Trim(s) == r;
    assert 0 <= k <= |s| - |r| && r == s[k..k + |r|] && AllSpace(s[..k]) && AllSpace(s[k + |r|..]);
  }

  /**
   * Cutting a white-space prefix `s[..k]` that leaves `t` not starting with
   * white space, and then a white-space suffix of `t` that leaves `r`, keeps
   * the infix `s[k..k + |r|]`, which is empty exactly when `s` is all white space.
   */
  lemma TrimmedEnds(s: string, k: int, t: string, r: string)
    requires 0 <= k <= |s| && t == s[k..] && AllSpace(s[..k]) && (t == [] || !IsSpace(t[0]))
    requires |r| <= |t| && r == t[..|r|] && AllSpace(t[|r|..])
    ensures k + |r| <= |s| && r == s[k..k + |r|] && AllSpace(s[k + |r|..])
    ensures r != [] ==> r[0] == t[0]
    ensures r == [] <==> AllSpace(s)
  {
    assert s[k + |r|..] == t[|r|..];
    assert t != [] ==> t[0] == s[k];
    assert r == [] ==> t[|r|..] == t;
    assert t == [] ==> s == s[..k];
  }

  /** ASCII `toLowerCase` of one character. */
  function LowerChar(c: char): (d: char)
  {
    if 'A' <= c <= 'Z' then (c as int + 32) as char else c
  }

  /** `s.toLowerCase()`, restricted to ASCII letters. */
  function ToLower(s: string): (r: string)
    ensures |r| == |s|
    ensures forall i | 0 <= i < |s| :: r[i] == LowerChar(s[i])
  {
    if s == [] then [] else [LowerChar(s[0])] + ToLower(s[1..])
  }

  // ---------------------------------------------------------------------------
  // Evaluation of each validator against a control value
  // ---------------------------------------------------------------------------

  /** Angular's `required`: `undefined`, `null` and the empty string are missing values. */
  function CheckRequired(v: JsValue): (r: Option<ValidationError>)
    ensures r.Some? <==> (v == JsUndefined || v == JsNull || v == JsStr(""))
    ensures r.Some? ==> r.value == RequiredError
  {
    match v
    case JsUndefined => Some(RequiredError)
    case JsNull => Some(RequiredError)
    case JsStr(s) => if s == "" then Some(RequiredError) else None
    case _ => None
  }

  /** Angular's `minLength(n)`: an empty value or one without a length passes; otherwise the raw length is compared. */
  function CheckMinLength(n: int, v: JsValue): (r: Option<ValidationError>)
    ensures r.Some? <==> (v.JsStr? && v.s != "" && |v.s| < n)
    ensures r.Some? ==> r.value == MinLengthError(n, |v.s|)
  {
    match v
    case JsStr(s) => if s != "" && |s| < n then Some(MinLengthError(n, |s|)) else None
    case _ => None
  }

  /** `minLengthCustom(n)`: a falsy value passes; otherwise the TRIMMED length is compared, the untrimmed one reported. */
  function CheckMinLengthCustom(n: int, v: JsValue): (r: Option<ValidationError>)
    ensures !Truthy(v) ==> r.None?
    ensures r.Some? <==> (v.JsStr? && v.s != "" && |Trim(v.s)| < n)
    ensures r.Some? ==> r.value == MinLengthCustomError(n, |v.s|)
  {
    if !Truthy(v) then None
    else match v
      case JsStr(s) => if |Trim(s)| < n then Some(MinLengthCustomError(n, |s|)) else None
      case _ => None
  }

  /** Whether some title equals `s` ignoring (ASCII) case; neither side is trimmed. */
  function SomeTitleMatches(titles: seq<string>, s: string): (b: bool)
    ensures b <==> exists i | 0 <= i < |titles| :: ToLower(titles[i]) == ToLower(s)
  {
    if titles == [] then false
    else if ToLower(titles[0]) == ToLower(s) then true
    else
      var b := SomeTitleMatches(titles[1..], s);
      assert forall i | 1 <= i < |titles| :: titles[i] == titles[1..][i - 1];
      b
  }

  /** `uniqueProjectNameValidator`: a falsy value passes; otherwise it fails when a title matches ignoring case. */
  function CheckUniqueName(titles: seq<string>, v: JsValue): (r: Option<ValidationError>)
    ensures !Truthy(v) ==> r.None?
    ensures r.Some? <==> (v.JsStr? && v.s != "" && exists i | 0 <= i < |titles| :: ToLower(titles[i]) == ToLower(v.s))
    ensures r.Some? ==> r.value == ProjectNameExists
  {
    if !Truthy(v) then None
    else match v
      case JsStr(s) => if SomeTitleMatches(titles, s) then Some(ProjectNameExists) else None
      case _ => None
  }

  /**
   * The error one validator reports on a value, if any: each validator reports
   * exactly what its own check does (`CheckReportsOwnKind` draws the
   * consequences).
   */
  function Check(val: Validator, v: JsValue): (r: Option<ValidationError>)
    ensures val.Required? ==> (r.Some? <==> (v == JsUndefined || v == JsNull || v == JsStr(""))) && (r.Some? ==> r.value == RequiredError)
    ensures val.MinLength? ==> r == CheckMinLength(val.minLength, v)
    ensures val.MinLengthCustom? ==> r == CheckMinLengthCustom(val.length, v)
    ensures val.UniqueName? ==> r == CheckUniqueName(val.titles, v)
  {
    match val
    case Required => CheckRequired(v)
    case MinLength(n) => CheckMinLength(n, v)
    case MinLengthCustom(n) => CheckMinLengthCustom(n, v)
    case UniqueName(titles) => CheckUniqueName(titles, v)
  }

  // ---------------------------------------------------------------------------
  // Properties
  // ---------------------------------------------------------------------------

  /**
   * A validator reports only its own kind of error, carrying its own bound, and
   * only `required` rejects a missing or falsy value.
   */
  lemma CheckReportsOwnKind(val: Validator, v: JsValue)
    ensures !val.Required? && !Truthy(v) ==> Check(val, v).None?
    ensures val.MinLength? && Check(val, v).Some? ==> Check(val, v).value == MinLengthError(val.minLength, |v.s|)
    ensures val.MinLengthCustom? && Check(val, v).Some? ==> Check(val, v).value == MinLengthCustomError(val.length, |v.s|)
    ensures val.UniqueName? && Check(val, v).Some? ==> Check(val, v).value == ProjectNameExists
  {
  }

  /** `minLengthCustom(0)` (or any bound at most 0) never reports an error. */
  lemma MinLengthCustomNonPositiveNeverFails(n: int, v: JsValue)
    requires n <= 0
    ensures CheckMinLengthCustom(n, v) == None
  {
  }

  /** A non-empty value shorter than the bound fails whatever its spacing, because trimming only shortens. */
  lemma MinLengthCustomShortFails(n: int, s: string)
    requires s != "" && |s| < n
    ensures CheckMinLengthCustom(n, JsStr(s)) == Some(MinLengthCustomError(n, |s|))
  {
  }

  /** A value made only of white space fails every positive bound and reports its full length. */
  lemma MinLengthCustomBlankFails(n: int, s: string)
    requires s != "" && AllSpace(s) && n >= 1
    ensures CheckMinLengthCustom(n, JsStr(s)) == Some(MinLengthCustomError(n, |s|))
  {
  }

  /** Leading white space is all removed by `TrimStart`, whatever follows it. */
  lemma {:induction false} TrimStartSkipsSpace(w: string, s: string)
    requires AllSpace(w)
    ensures TrimStart(w + s) == TrimStart(s)
  {
    if w != [] {
      assert (w + s)[1..] == w[1..] + s;
      TrimStartSkipsSpace(w[1..], s);
    } else {
      assert w + s == s;
    }
  }

  /** Trailing white space is all removed by `TrimEnd`, whatever precedes it. */
  lemma {:induction false} TrimEndSkipsSpace(s: string, w: string)
    requires AllSpace(w)
    ensures TrimEnd(s + w) == TrimEnd(s)
  {
    if w != [] {
      assert (s + w)[..|s + w| - 1] == s + w[..|w| - 1];
      TrimEndSkipsSpace(s, w[..|w| - 1]);
    } else {
      assert s + w == s;
    }
  }

  /** Once a non-space character is reached, `TrimStart` keeps everything after it, appended text included. */
  lemma {:induction false} TrimStartKeepsTail(s: string, w: string)
    requires !AllSpace(s)
    ensures TrimStart(s + w) == TrimStart(s) + w
  {
    if IsSpace(s[0]) {
      assert (s + w)[1..] == s[1..] + w;
      assert !AllSpace(s[1..]) by {
        var i :| 0 <= i < |s| && !IsSpace(s[i]);
        assert s[1..][i - 1] == s[i];
      }
      TrimStartKeepsTail(s[1..], w);
    }
  }

  /** Surrounding white space does not change the trimmed text, so padding never helps a value meet the bound. */
  lemma TrimIgnoresPadding(lead: string, s: string, trail: string)
    requires AllSpace(lead) && AllSpace(trail)
    ensures Trim(lead + s + trail) == Trim(s)
  {
    assert lead + s + trail == lead + (s + trail);
    TrimStartSkipsSpace(lead, s + trail);
    if AllSpace(s) {
      assert AllSpace(s + trail);
      assert Trim(s + trail) == [];
    } else {
      TrimStartKeepsTail(s, trail);
      TrimEndSkipsSpace(TrimStart(s), trail);
    }
  }

  /** Consequently `minLengthCustom` judges a padded value by its unpadded text, and reports the padded length. */
  lemma MinLengthCustomIgnoresPadding(n: int, lead: string, s: string, trail: string)
    requires AllSpace(lead) && AllSpace(trail) && s != ""
    ensures CheckMinLengthCustom(n, JsStr(lead + s + trail)).Some? <==> |Trim(s)| < n
    ensures CheckMinLengthCustom(n, JsStr(lead + s + trail)).Some? ==>
      CheckMinLengthCustom(n, JsStr(lead + s + trail)).value.actualLength == |lead| + |s| + |trail|
  {
    TrimIgnoresPadding(lead, s, trail);
  }

  /** Lower-casing twice is lower-casing once, so "equal ignoring case" is an equivalence. */
  lemma {:induction false} ToLowerIdempotent(s: string)
    ensures ToLower(ToLower(s)) == ToLower(s)
  {
    if s != [] {
      ToLowerIdempotent(s[1..]);
      assert ToLower(s)[1..] == ToLower(s[1..]);
    }
  }

  /** A value equal to an existing title up to case is rejected; its own lower-case spelling in particular. */
  lemma UniqueNameRejectsCaseVariant(titles: seq<string>, i: int, s: string)
    requires 0 <= i < |titles| && s != "" && ToLower(s) == ToLower(titles[i])
    ensures CheckUniqueName(titles, JsStr(s)) == Some(ProjectNameExists)
    ensures CheckUniqueName(titles, JsStr(ToLower(s))) == Some(ProjectNameExists)
  {
    ToLowerIdempotent(s);
  }

  /** With no projects the uniqueness check never fails. */
  lemma UniqueNameNoTitlesNeverFails(v: JsValue)
    ensures CheckUniqueName([], v) == None
  {
  }

  /** Titles are not trimmed: a padded title does not clash with its unpadded spelling. */
  lemma UniqueNameDoesNotTrimTitles()
    ensures CheckUniqueName(["  Project Alpha  "], JsStr("project alpha")) == None
  {
    var title, value := "  Project Alpha  ", "project alpha";
    assert |title| == 17 && |value| == 13;
    assert ToLower(title) != ToLower(value) by {
      assert |ToLower(title)| != |ToLower(value)|;
    }
  }
}
