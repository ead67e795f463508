/**
 * Form field descriptors: `FormFieldBase`, built from a partial set of options
 * with a default for every omitted attribute, and its text-box specialisation
 * `FormFieldText`.
 */
module FormFields {
  import opened JsValues
  import opened Validators

  /** One entry of a descriptor's option list (for choice controls). */
  datatype Choice = Choice(key: string, value: string)

  /**
   * The options object passed to the constructor: every attribute may be left
   * out. `value` and `required` are untyped (`JsUndefined` when left out).
   */
  datatype FieldOptions = FieldOptions(
    value: JsValue,
    key: Nullish<string>,
    labelText: Nullish<string>,
    required: JsValue,
    order: Nullish<int>,
    controlType: Nullish<string>,
    inputType: Nullish<string>,
    options: Nullish<seq<Choice>>,
    rows: Nullish<int>,
    validators: Nullish<seq<Validator>>)

  /** A constructed descriptor. Only `value` and `type` can still be absent. */
  datatype FormField = FormField(
    value: JsValue,
    key: string,
    labelText: string,
    required: bool,
    order: int,
    controlType: string,
    inputType: Nullish<string>,
    options: seq<Choice>,
    rows: int,
    validators: seq<Validator>)

  /** `new FormFieldBase()`: the options object with nothing in it. */
  function NoOptions(): FieldOptions
  {
    FieldOptions(JsUndefined, Undefined, Undefined, JsUndefined, Undefined, Undefined, Undefined, Undefined, Undefined, Undefined)
  }

  /**
   * The `FormFieldBase` constructor. Attributes defaulted with `??` keep every
   * present value (including `0`, `''` and negatives) and take the default only
   * for `undefined`/`null`; `required` is the truthiness of the option; `value`
   * and `type` are copied as given.
   */
  function NewField(o: FieldOptions): (f: FormField)
    ensures f.value == o.value && f.inputType == o.inputType
    ensures f.required <==> Truthy(o.required)
    ensures o.key.Present? ==> f.key == o.key.value
    ensures o.labelText.Present? ==> f.labelText == o.labelText.value
    ensures o.order.Present? ==> f.order == o.order.value
    ensures o.controlType.Present? ==> f.controlType == o.controlType.value
    ensures o.options.Present? ==> f.options == o.options.value
    ensures o.rows.Present? ==> f.rows == o.rows.value
    ensures o.validators.Present? ==> f.validators == o.validators.value
    ensures !o.key.Present? ==> f.key == ""
    ensures !o.labelText.Present? ==> f.labelText == ""
    ensures !o.order.Present? ==> f.order == 1
    ensures !o.controlType.Present? ==> f.controlType == ""
    ensures !o.options.Present? ==> f.options == []
    ensures !o.rows.Present? ==> f.rows == 3
    ensures !o.validators.Present? ==> f.validators == []
  {
    FormField(
      value := o.value,
      key := Coalesce(o.key, ""),
      labelText := Coalesce(o.labelText, ""),
      required := Truthy(o.required),
      order := Coalesce(o.order, 1),
      controlType := Coalesce(o.controlType, ""),
      inputType := o.inputType,
      options := Coalesce(o.options, []),
      rows := Coalesce(o.rows, 3),
      validators := Coalesce(o.validators, []))
  }

  /**
   * `new FormFieldText(options)`: the base construction, after which the
   * subclass's field initialisers force the control kind and the input type.
   */
  function NewTextField(o: FieldOptions): (f: FormField)
    ensures f.controlType == "textbox" && f.inputType == Present("text")
    ensures f == NewField(o).(controlType := "textbox", inputType := Present("text"))
  {
    NewField(o).(controlType := "textbox", inputType := Present("text"))
  }

  /** The options that spell out every attribute of `f` explicitly. */
  function OptionsOf(f: FormField): FieldOptions
  {
    FieldOptions(f.value, Present(f.key), Present(f.labelText), JsBool(f.required), Present(f.order),
                 Present(f.controlType), f.inputType, Present(f.options), Present(f.rows), Present(f.validators))
  }

  // ---------------------------------------------------------------------------
  // Properties
  // ---------------------------------------------------------------------------

  /** With no options: empty key, label and control kind, not required, order 1, 3 rows, no validators or options, no value or type. */
  lemma NoOptionsDefaults()
    ensures NewField(NoOptions()) == FormField(JsUndefined, "", "", false, 1, "", Undefined, [], 3, [])
  {
  }

  /** `required` is `!!option`: `undefined`, `null`, `0` and `false` give false; `true` and a non-empty string give true. */
  lemma RequiredTruthiness(o: FieldOptions)
    ensures o.required in {JsUndefined, JsNull, JsNum(0), JsBool(false)} ==> !NewField(o).required
    ensures o.required in {JsBool(true), JsStr("truthy")} ==> NewField(o).required
  {
  }

  /** An explicit order or row count of zero or below is kept, not replaced by the default. */
  lemma NonPositiveNumbersKept(o: FieldOptions, order: int, rows: int)
    requires order <= 0 && rows <= 0
    ensures NewField(o.(order := Present(order), rows := Present(rows))).order == order
    ensures NewField(o.(order := Present(order), rows := Present(rows))).rows == rows
  {
  }

  /** `null` in a defaulted attribute behaves like leaving it out, while `null` as value or type is kept. */
  lemma NullDefaultsButIsCopiedVerbatim(o: FieldOptions)
    ensures NewField(o.(key := Null, order := Null, rows := Null)) == NewField(o.(key := Undefined, order := Undefined, rows := Undefined))
    ensures NewField(o.(value := JsNull, inputType := Null)).value == JsNull
    ensures NewField(o.(value := JsNull, inputType := Null)).inputType == Null
  {
  }

  /** Every supplied attribute is reproduced exactly: spelling a descriptor out as options and constructing it again gives it back. */
  lemma SuppliedOptionsReproduced(f: FormField)
    ensures NewField(OptionsOf(f)) == f
  {
  }

  /** A text field keeps everything the options say except control kind and type, which no option can change. */
  lemma TextFieldOverridesOnlyKindAndType(o: FieldOptions)
    ensures NewTextField(o).controlType == NewTextField(o.(controlType := Undefined, inputType := Undefined)).controlType
    ensures NewTextField(o).(controlType := NewField(o).controlType, inputType := NewField(o).inputType) == NewField(o)
  {
  }

  /** A text field built from no options follows the base defaults apart from its kind and type. */
  lemma TextFieldDefaults()
    ensures NewTextField(NoOptions()) == FormField(JsUndefined, "", "", false, 1, "textbox", Present("text"), [], 3, [])
  {
  }
}
