/**
 * `GenericFormComponent`: holds its descriptors and presentation inputs,
 * builds its form group on initialisation, and on submission emits the
 * group's key-to-value record only when every control is valid.
 */
module GenericForm {
  import opened JsValues
  import opened Validators
  import opened FormFields
  import opened FormControls

  class GenericFormComponent {
    /** Inputs set by the parent component. */
    var formFields: seq<FormField>
    var labelSubmit: string
    var styleClass: string
    /** The form group; absent until `NgOnInit` has run. */
    var formGroup: Option<FormGroup>
    /** Every record emitted on the `formSubmit` output, oldest first. */
    var submitted: seq<map<string, JsValue>>

    /** The input defaults: no descriptors, submit label "Guardar", no style class. */
    constructor ()
      ensures formFields == [] && labelSubmit == "Guardar" && styleClass == ""
      ensures formGroup == None && submitted == []
    {
      formFields := [];
      labelSubmit := "Guardar";
      styleClass := "";
      formGroup := None;
      submitted := [];
    }

    /** `ngOnInit`: the form group is synthesised from the current descriptors; nothing else changes. */
    method NgOnInit()
      modifies this`formGroup
      ensures formGroup == Some(GroupOf(formFields))
      ensures formGroup.value.Keys == KeysOf(formFields)
    {
      var g := ToFormGroup(formFields);
      formGroup := Some(g);
    }

    /** The user edits the control under `key` (a `setValue` on that control). */
    method SetControlValue(key: string, v: JsValue)
      requires formGroup.Some? && key in formGroup.value
      modifies this`formGroup
      ensures formGroup == Some(old(formGroup.value)[key := old(formGroup.value)[key].(value := v)])
    {
      var g := formGroup.value;
      formGroup := Some(g[key := g[key].(value := v)]);
    }

    /**
     * `onSubmit`: emits the group's value exactly once when the group is valid,
     * and nothing otherwise. The form group and the descriptors are left as they are.
     */
    method OnSubmit()
      requires formGroup.Some?
      modifies this`submitted
      ensures GroupValid(formGroup.value) ==> submitted == old(submitted) + [GroupValue(formGroup.value)]
      ensures !GroupValid(formGroup.value) ==> submitted == old(submitted)
    {
      if GroupValid(formGroup.value) {
        submitted := submitted + [GroupValue(formGroup.value)];
      }
    }
  }

  /**
   * A form with one required "title" field: submitting it empty emits nothing;
   * after the user types a title, submitting emits exactly `{title: <value>}`.
   */
  method RequiredTitleScenario(title: string)
    requires title != ""
  {
    var form := new GenericFormComponent();
    var titleField := NewTextField(NoOptions().(key := Present("title"), labelText := Present("Title"), required := JsBool(true)));
    form.formFields := [titleField];
    form.NgOnInit();
    assert LastWithKey(form.formFields, 0);
    RequiredFieldBlocksGroup(form.formFields, 0);
    form.OnSubmit();
    assert form.submitted == [];

    form.SetControlValue("title", JsStr(title));
    var g := form.formGroup.value;
    assert g.Keys == {"title"};
    assert g["title"] == Control(JsStr(title), [Required]);
    assert GroupValid(g);
    form.OnSubmit();
    assert GroupValue(g) == map["title" := JsStr(title)];
    assert form.submitted == [map["title" := JsStr(title)]];
  }
}
