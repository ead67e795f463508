/**
 * Form synthesis (`FormControlService.toFormGroup`): one control per
 * descriptor key, each with the validator list `required` (when the
 * descriptor is required) followed by the descriptor's own validators, and
 * the initial value `f.value || ''`. Also the form-group notions that
 * submission reads: validity and the key-to-value record.
 */
module FormControls {
  import opened JsValues
  import opened Validators
  import opened FormFields

  /** A form control: its current value and its validators, in the order they run. */
  datatype Control = Control(value: JsValue, validators: seq<Validator>)

  /** A form group: controls by key. */
  type FormGroup = map<string, Control>

  /**
   * The control `toFormGroup` creates for one descriptor: the value when truthy
   * and `''` otherwise, and the descriptor's validators behind a leading
   * `required` when the descriptor is required.
   */
  function ControlFor(f: FormField): (c: Control)
    ensures c.value == (if Truthy(f.value) then f.value else JsStr(""))
    ensures |c.validators| == (if f.required then 1 else 0) + |f.validators|
    ensures f.required ==> c.validators[0] == Required
    ensures forall i | 0 <= i < |f.validators| :: c.validators[|c.validators| - |f.validators| + i] == f.validators[i]
  {
    Control(OrElse(f.value, JsStr("")), (if f.required then [Required] else []) + f.validators)
  }

  /**
   * The errors the validators report on `value`, in validator order; a
   * validator that passes contributes nothing, and every failing one
   * contributes its error (`ErrorsConcat` and `ErrorsOfOne` fix the order).
   */
  function Errors(value: JsValue, vs: seq<Validator>): (r: seq<ValidationError>)
    ensures |r| <= |vs|
    ensures r == [] <==> forall i | 0 <= i < |vs| :: Check(vs[i], value).None?
    ensures forall e | e in r :: exists i | 0 <= i < |vs| :: Check(vs[i], value) == Some(e)
    ensures forall i | 0 <= i < |vs| && Check(vs[i], value).Some? :: Check(vs[i], value).value in r
  {
    if vs == [] then []
    else
      var rest := Errors(value, vs[1..]);
      assert forall i | 1 <= i < |vs| :: vs[i] == vs[1..][i - 1];
      match Check(vs[0], value)
      case Some(e) => [e] + rest
      case None => rest
  }

  predicate ControlValid(c: Control)
  {
    Errors(c.value, c.validators) == []
  }

  /** A group is valid when every one of its controls is. */
  predicate GroupValid(g: FormGroup)
  {
    forall k | k in g :: ControlValid(g[k])
  }

  /** The group's value: the key-to-value record of its controls. */
  function GroupValue(g: FormGroup): (r: map<string, JsValue>)
    ensures r.Keys == g.Keys
    ensures forall k | k in g :: r[k] == g[k].value
  {
    map k | k in g :: g[k].value
  }

  /** The descriptor keys, as a set. */
  function KeysOf(fields: seq<FormField>): set<string>
  {
    set i | 0 <= i < |fields| :: fields[i].key
  }

  /** Whether `fields[j]` is the last descriptor with its key. */
  predicate LastWithKey(fields: seq<FormField>, j: int)
    requires 0 <= j < |fields|
  {
    forall i | j < i < |fields| :: fields[i].key != fields[j].key
  }

  /**
   * The group `toFormGroup` builds: each descriptor in turn writes its control
   * under its key, so the group has exactly one control per descriptor key.
   */
  function GroupOf(fields: seq<FormField>): (g: FormGroup)
    ensures g.Keys == KeysOf(fields)
  {
    if fields == [] then map[]
    else
      var n := |fields| - 1;
      var f := fields[n];
      KeysOfSnoc(fields);
      GroupOf(fields[..n])[f.key := ControlFor(f)]
  }

  /**
   * `toFormGroup`: a loop over the descriptors that writes one control per
   * descriptor into the group, building its validator list by pushes.
   */
  method ToFormGroup(fields: seq<FormField>) returns (group: FormGroup)
    ensures group == GroupOf(fields)
    ensures group.Keys == KeysOf(fields)
    ensures forall j | 0 <= j < |fields| && LastWithKey(fields, j) :: group[fields[j].key] == ControlFor(fields[j])
  {
    group := map[];
    var i := 0;
    while i < |fields|
      invariant 0 <= i <= |fields|
      invariant group == GroupOf(fields[..i])
    {
      var f := fields[i];
      var validators: seq<Validator> := [];
      if f.required {
        validators := validators + [Required];
      }
      if |f.validators| > 0 {
        validators := validators + f.validators;
      }
      PushedValidators(f, validators);
      group := group[f.key := Control(OrElse(f.value, JsStr("")), validators)];
      GroupOfStep(fields, i);
      i := i + 1;
    }
    assert fields[..i] == fields;
    GroupOfAllLastWin(fields);
  }

  // ---------------------------------------------------------------------------
  // Properties
  // ---------------------------------------------------------------------------

  /** Pushing `required` when required, and then the descriptor's validators when there are any, builds the control's list. */
  lemma PushedValidators(f: FormField, validators: seq<Validator>)
    requires validators == (if f.required then [] + [Required] else []) + (if |f.validators| > 0 then f.validators else [])
    ensures validators == ControlFor(f).validators
  {
  }

  /** Extending the descriptors by one writes that descriptor's control over the group of the shorter list. */
  lemma GroupOfStep(fields: seq<FormField>, i: int)
    requires 0 <= i < |fields|
    ensures GroupOf(fields[..i + 1]) == GroupOf(fields[..i])[fields[i].key := ControlFor(fields[i])]
  {
    assert fields[..i + 1][..i] == fields[..i];
  }

  /** The keys of a non-empty descriptor list are the keys of all but the last one, plus the last one's. */
  lemma KeysOfSnoc(fields: seq<FormField>)
    requires fields != []
    ensures KeysOf(fields) == KeysOf(fields[..|fields| - 1]) + {fields[|fields| - 1].key}
  {
    var n := |fields| - 1;
    forall k | k in KeysOf(fields) ensures k in KeysOf(fields[..n]) + {fields[n].key} {
      var i :| 0 <= i < |fields| && fields[i].key == k;
      if i < n { assert fields[..n][i] == fields[i]; }
    }
    forall k | k in KeysOf(fields[..n]) ensures k in KeysOf(fields) {
      var i :| 0 <= i < n && fields[..n][i].key == k;
      assert fields[i] == fields[..n][i];
    }
  }

  /** For a repeated key, the last descriptor with that key determines the control. */
  lemma {:induction false} GroupOfLastWins(fields: seq<FormField>, j: int)
    requires 0 <= j < |fields| && LastWithKey(fields, j)
    ensures fields[j].key in GroupOf(fields)
    ensures GroupOf(fields)[fields[j].key] == ControlFor(fields[j])
  {
    var n := |fields| - 1;
    if j < n {
      assert fields[..n][j] == fields[j];
      GroupOfLastWins(fields[..n], j);
    }
  }

  /** Every key's control is that of the last descriptor with the key. */
  lemma GroupOfAllLastWin(fields: seq<FormField>)
    ensures forall j | 0 <= j < |fields| && LastWithKey(fields, j) :: GroupOf(fields)[fields[j].key] == ControlFor(fields[j])
  {
    forall j | 0 <= j < |fields| && LastWithKey(fields, j)
      ensures GroupOf(fields)[fields[j].key] == ControlFor(fields[j])
    {
      GroupOfLastWins(fields, j);
    }
  }

  /** The initial value is the descriptor's value when truthy; `undefined`, `null`, `false`, `0` and `''` all become `''`. */
  lemma InitialValue(f: FormField)
    ensures Truthy(f.value) ==> ControlFor(f).value == f.value
    ensures f.value in {JsUndefined, JsNull, JsBool(false), JsNum(0), JsStr("")} ==> ControlFor(f).value == JsStr("")
  {
  }

  /** A required descriptor without a (truthy) value yields a control whose first error is `required`. */
  lemma RequiredWithoutValueFails(f: FormField)
    requires f.required && !Truthy(f.value)
    ensures var c := ControlFor(f); Errors(c.value, c.validators) != [] && Errors(c.value, c.validators)[0] == RequiredError
    ensures !ControlValid(ControlFor(f))
  {
  }

  /** A non-required descriptor without validators yields a control with no validators and no error, whatever its value. */
  lemma UnconstrainedAlwaysValid(f: FormField, v: JsValue)
    requires !f.required && f.validators == []
    ensures ControlFor(f).validators == []
    ensures ControlValid(ControlFor(f).(value := v))
  {
  }

  /** A control is valid exactly when none of its validators reports an error; so each descriptor validator is enforced. */
  lemma DescriptorValidatorEnforced(f: FormField, i: int, v: JsValue)
    requires 0 <= i < |f.validators| && Check(f.validators[i], v).Some?
    ensures !ControlValid(ControlFor(f).(value := v))
  {
  }

  /** For example, `minLength(3)` rejects the value "ab". */
  lemma MinLengthRejectsShortValue(f: FormField)
    requires f.validators == [MinLength(3)]
    ensures MinLengthError(3, 2) in Errors(JsStr("ab"), ControlFor(f).validators)
  {
  }

  /**
   * The record a valid form emits has exactly the descriptor keys, and under
   * each key the initial value of the last descriptor with that key (`f.value
   * || ''`) until the user edits it.
   */
  lemma SubmittedRecordOfDescriptors(fields: seq<FormField>, j: int)
    requires 0 <= j < |fields| && LastWithKey(fields, j)
    ensures GroupValue(GroupOf(fields)).Keys == KeysOf(fields)
    ensures GroupValue(GroupOf(fields))[fields[j].key] == OrElse(fields[j].value, JsStr(""))
  {
    GroupOfLastWins(fields, j);
  }

  /** Each validator's own errors come in its place: the errors of a list split in two are the two parts' errors in order. */
  lemma {:induction false} ErrorsConcat(value: JsValue, a: seq<Validator>, b: seq<Validator>)
    ensures Errors(value, a + b) == Errors(value, a) + Errors(value, b)
  {
    if a == [] {
      assert a + b == b;
    } else {
      assert (a + b)[1..] == a[1..] + b;
      ErrorsConcat(value, a[1..], b);
    }
  }

  /** A single validator reports its error, or nothing when it passes. */
  lemma ErrorsOfOne(value: JsValue, v: Validator)
    ensures Check(v, value).Some? ==> Errors(value, [v]) == [Check(v, value).value]
    ensures Check(v, value).None? ==> Errors(value, [v]) == []
  {
  }

  /** A group holding a required control for the last descriptor of its key and no value is invalid. */
  lemma RequiredFieldBlocksGroup(fields: seq<FormField>, j: int)
    requires 0 <= j < |fields| && LastWithKey(fields, j)
    requires fields[j].required && !Truthy(fields[j].value)
    ensures !GroupValid(GroupOf(fields))
  {
    GroupOfLastWins(fields, j);
    RequiredWithoutValueFails(fields[j]);
  }
}
