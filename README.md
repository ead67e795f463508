# Project and task manager UI — verified model of its logic

This Dafny project models the logic of a small Angular application for managing projects and their tasks:

- the in-memory task collection and its create/update/delete/load operations (`TaskService`);
- form field descriptors built from partial options with defaults (`FormFieldBase`, `FormFieldText`);
- synthesis of a form group from descriptors (`FormControlService.toFormGroup`);
- the generic form component's initialisation and submission gating (`GenericFormComponent`);
- the two custom validators (`minLengthCustom`, `uniqueProjectNameValidator`) and the framework's `required` and `minLength`;
- the session flag (`AuthService`);
- the project list loading (`ProjectsService.loadProjects`) and its paginated view (`ProjectHomeComponent`).

Modules, one per source component:

| module | file | source |
|---|---|---|
| `JsValues` | js_values.dfy | JavaScript notions used throughout: `Option`, `Nullish` (what `??` replaces), `JsValue` with `Truthy` (what `!!` and `\|\|` test), `Fetch` (an HTTP outcome) |
| `Validators` | validators.dfy | `src/app/Shared/Validators/validators.ts`, plus Angular's `required`/`minLength` |
| `FormFields` | form_fields.dfy | `form-field-base.ts`, `form-field-text.ts` |
| `FormControls` | form_controls.dfy | `form-control.service.ts` |
| `GenericForm` | generic_form.dfy | `generic-form.component.ts` |
| `Tasks` | tasks.dfy | `task.service.ts` |
| `Auth` | auth.dfy | `auth.service.ts` |
| `Projects` | projects.dfy | `projects.service.ts` |
| `ProjectHome` | project_home.dfy | `project-home.component.ts` |

The form descriptor and the form synthesis are pure, so they are modelled as datatypes and functions. `toFormGroup` is the exception: it is a loop that writes into a map, so `FormControls.ToFormGroup` is a method with a loop, proved equal to the function `GroupOf`. The services and components update fields in place, so they are modelled as classes whose methods state the new state. The pure list computations they use are functions: `NextId`, `Replaced`, `Without`, `ToProjects` and `Window`. The lemmas about those functions carry the properties.

How the source's features are represented:

- Validators are data: `Required`, `MinLength(n)`, `MinLengthCustom(n)` and `UniqueName(titles)`. `Validators.Check` evaluates one validator against a value.
- Network responses are parameters. `Fetched(data)` is a response and `FetchFailed` is an error.
- An asynchronous load has two steps:
  - the request method (`LoadTasks`, `LoadProjects`) runs the synchronous part;
  - `ReceiveTasks` or `ReceiveUsers` is the subscription callback;
  - a ghost counter `pendingLoads` tracks requests whose response has not yet arrived.
- Emitted form records are collected in the field `submitted`.
- `label` and `type` are Dafny keywords, so the descriptor attributes of those names are called `labelText` and `inputType`.

Some behaviours of the code are easy to get wrong. The model keeps each of them as the code has it:

- A new task's id is 1 for an empty list, never 0.
- `deleteTask` removes every task with the id.
- `updateTask` replaces the whole record. It does not merge fields. An absent id republishes an equal list.
- `loadTasks` checks the cache only when it is called. A response that arrives later overwrites whatever the list holds by then (`ReceiveTasks`).
- The session flag starts false. The stored token is not read at startup, so a token left by an earlier session stays and does not log anybody in.
- `f.value || ''` turns an initial `false` or `0` into `''`. The model keeps this behaviour (`FormControls.InitialValue`).

## Model

| member | source | states |
|---|---|---|
| JsValues.Coalesce | src/app/Shared/Models/forms/form-field-base.ts:16-24 | `x ?? d` keeps every present value (0, '' and false included) and replaces only undefined and null |
| JsValues.Truthy | src/app/Shared/Models/forms/form-field-base.ts:18 | a value is truthy iff it is none of undefined, null, false, 0 and '' |
| JsValues.OrElse | src/app/Shared/Services/form-control/form-control.service.ts:21 | `x \|\| d` is the value itself when truthy and the fallback otherwise |
| Tasks.MaxId | src/app/Modules/Tasks/Services/task.service.ts:30 | the result bounds every id of the non-empty list and is one of them |
| Tasks.NextId | src/app/Modules/Tasks/Services/task.service.ts:27-31 | 1 for an empty list, otherwise the maximum id plus one; in every case larger than every existing id |
| Tasks.Replaced | src/app/Modules/Tasks/Services/task.service.ts:41-43 | same length; each task with the id becomes the replacement record, every other task is unchanged in place |
| Tasks.Without | src/app/Modules/Tasks/Services/task.service.ts:50 | a task is kept iff it was in the list and has a different id; never longer |
| Tasks.PatchedTask | src/app/Modules/Tasks/Services/task.service.ts:39 | the record carries the given id whatever id the patch holds, and exactly the patch's other attributes |
| Tasks.PatchIdIgnored | src/app/Modules/Tasks/Services/task.service.ts:39 | patches that differ only in their id produce the same record |
| Tasks.TaskService.constructor | src/app/Modules/Tasks/Services/task.service.ts:12 | the list starts empty |
| Tasks.TaskService.LoadTasks | src/app/Modules/Tasks/Services/task.service.ts:17-20 | a request is issued iff the list is empty; the list itself is untouched |
| Tasks.TaskService.ReceiveTasks | src/app/Modules/Tasks/Services/task.service.ts:20-23 | a fetched list is published as is; a failed fetch publishes the empty list |
| Tasks.TaskService.CreateTask | src/app/Modules/Tasks/Services/task.service.ts:26-35 | the input with the next id is appended after all existing tasks and returned |
| Tasks.TaskService.UpdateTask | src/app/Modules/Tasks/Services/task.service.ts:37-46 | the patch with the id forced is returned and replaces every task with that id |
| Tasks.TaskService.DeleteTask | src/app/Modules/Tasks/Services/task.service.ts:48-53 | the new list is the old one without the tasks with that id |
| Tasks.CreateAppendsFresh | src/app/Modules/Tasks/Services/task.service.ts:27-34 | creation grows the list by one, keeps the prefix, gives an id no existing task has and keeps the other attributes |
| Tasks.ReplacedAbsentIsIdentity | src/app/Modules/Tasks/Services/task.service.ts:41-43 | updating an id no task has leaves the list equal to before |
| Tasks.UpdateIsNotMerge | src/app/Modules/Tasks/Services/task.service.ts:39 | an attribute missing from the patch is missing from the updated task (wholesale replacement), and the id is forced |
| Tasks.WithoutAbsentIsIdentity | src/app/Modules/Tasks/Services/task.service.ts:50 | deleting an id no task has leaves the list unchanged |
| Tasks.WithoutConcat | src/app/Modules/Tasks/Services/task.service.ts:50 | deletion distributes over concatenation, so the remaining tasks keep their relative order |
| Tasks.WithoutIdempotent | src/app/Modules/Tasks/Services/task.service.ts:50 | deleting the same id twice is deleting it once |
| Tasks.CreateThenDeleteRestores | src/app/Modules/Tasks/Services/task.service.ts:26-50 | create followed by delete of the returned id restores the original list exactly |
| Tasks.DeleteLastOfThree | src/app/Modules/Tasks/Services/task.service.ts:50 | deleting id 3 from tasks 1, 2, 3 leaves tasks 1, 2 |
| FormFields.NewField | src/app/Shared/Models/forms/form-field-base.ts:14-25 | each defaulted attribute keeps any present option (including 0, '' and negatives) and takes '', 1, 3 or [] when undefined or null; required is the option's truthiness; value and type are copied verbatim |
| FormFields.NewTextField | src/app/Shared/Models/forms/form-field-text.ts:3-6 | control kind is always 'textbox' and type always 'text'; all else is the base construction |
| FormFields.NoOptionsDefaults | src/app/Shared/Models/forms/form-field-base.ts:14-25 | with no options: key, label, kind '', not required, order 1, rows 3, empty validators and options, value and type undefined |
| FormFields.RequiredTruthiness | src/app/Shared/Models/forms/form-field-base.ts:18 | undefined, null, 0 and false give required false; true and 'truthy' give true |
| FormFields.NonPositiveNumbersKept | src/app/Shared/Models/forms/form-field-base.ts:19-23 | an explicit order or rows of 0 or below is kept, not defaulted |
| FormFields.NullDefaultsButIsCopiedVerbatim | src/app/Shared/Models/forms/form-field-base.ts:15-21 | null in a defaulted attribute acts as omitted; null as value or type is kept |
| FormFields.SuppliedOptionsReproduced | src/app/Shared/Models/forms/form-field-base.ts:14-24 | every descriptor is reproduced exactly from options that spell out all its attributes |
| FormFields.TextFieldOverridesOnlyKindAndType | src/app/Shared/Models/forms/form-field-text.ts:3-5 | no option changes a text field's kind; restoring kind and type gives the base descriptor back |
| FormFields.TextFieldDefaults | src/app/Shared/Models/forms/form-field-text.ts:3-5 | with no options a text field has the base defaults with kind 'textbox' and type 'text' |
| Validators.TrimStart | src/app/Shared/Validators/validators.ts:7 | the result is a suffix whose removed prefix is all white space and which does not start with white space |
| Validators.TrimEnd | src/app/Shared/Validators/validators.ts:7 | the result is a prefix whose removed suffix is all white space and which does not end with white space |
| Validators.Trim | src/app/Shared/Validators/validators.ts:7 | never longer; neither starts nor ends with white space; empty iff the input is all white space |
| Validators.TrimIsInfix | src/app/Shared/Validators/validators.ts:7 | the trimmed text is the infix of the input between an all-white-space prefix and an all-white-space suffix |
| Validators.ToLower | src/app/Shared/Validators/validators.ts:25 | same length; each character lower-cased |
| Validators.CheckRequired | src/app/Shared/Services/form-control/form-control.service.ts:14-16 | reports the required error iff the value is undefined, null or '' |
| Validators.CheckMinLength | src/app/Shared/Components/generic-form/generic-form.component.spec.ts:320-329 | reports (n, length) iff the value is a non-empty string shorter than n |
| Validators.CheckMinLengthCustom | src/app/Shared/Validators/validators.ts:4-16 | no error for a falsy value; otherwise an error iff the trimmed length is below n, reporting n and the untrimmed length |
| Validators.SomeTitleMatches | src/app/Shared/Validators/validators.ts:23-25 | true iff some title equals the value after lower-casing both |
| Validators.CheckUniqueName | src/app/Shared/Validators/validators.ts:18-28 | no error for a falsy value; otherwise projectNameExists iff some title matches ignoring case |
| Validators.Check | src/app/Shared/Services/form-control/form-control.service.ts:14-21 | required fails exactly on undefined, null and ''; minLength, minLengthCustom and the uniqueness check report exactly what their own checks report |
| Validators.CheckReportsOwnKind | src/app/Shared/Services/form-control/form-control.service.ts:14-21 | each validator reports only its own kind of error with its own bound and the value's length; only required rejects an undefined, null or falsy value |
| Validators.MinLengthCustomNonPositiveNeverFails | src/app/Shared/Validators/validators.ts:7 | minLengthCustom(0) never reports an error |
| Validators.MinLengthCustomShortFails | src/app/Shared/Validators/validators.ts:7-12 | a non-empty value with fewer than n characters always fails, reporting its length |
| Validators.MinLengthCustomBlankFails | src/app/Shared/Validators/validators.ts:7-12 | a non-empty all-white-space value fails every positive bound |
| Validators.TrimIgnoresPadding | src/app/Shared/Validators/validators.ts:7 | surrounding white space does not change the trimmed text |
| Validators.MinLengthCustomIgnoresPadding | src/app/Shared/Validators/validators.ts:7-12 | a padded value passes or fails as its unpadded text does, and reports its padded length |
| Validators.ToLowerIdempotent | src/app/Shared/Validators/validators.ts:25 | lower-casing twice equals lower-casing once |
| Validators.UniqueNameRejectsCaseVariant | src/app/Shared/Validators/validators.ts:23-26 | a value equal to an existing title up to case, and its lower-case spelling, are rejected |
| Validators.UniqueNameNoTitlesNeverFails | src/app/Shared/Validators/validators.ts:23-26 | with no projects the check never fails |
| Validators.UniqueNameDoesNotTrimTitles | src/app/Shared/Validators/validators.ts:25 | '  Project Alpha  ' does not clash with 'project alpha' |
| FormControls.Errors | src/app/Shared/Services/form-control/form-control.service.ts:13-21 | no errors iff every validator passes; every failing validator's error is reported and every reported error comes from a validator; no more errors than validators |
| FormControls.ErrorsConcat | src/app/Shared/Services/form-control/form-control.service.ts:13-19 | the errors of a validator list split in two are the first part's errors followed by the second's, so errors come in validator order |
| FormControls.ErrorsOfOne | src/app/Shared/Services/form-control/form-control.service.ts:13-19 | a single validator contributes exactly its error, or nothing when it passes |
| FormControls.ControlFor | src/app/Shared/Services/form-control/form-control.service.ts:13-21 | the initial value is the descriptor's value when truthy and '' otherwise; the validators are required first when required, then the descriptor's own, in order |
| FormControls.GroupOf | src/app/Shared/Services/form-control/form-control.service.ts:12-22 | each descriptor in turn writes its control under its key, so the group's key set is exactly the descriptor keys |
| FormControls.ToFormGroup | src/app/Shared/Services/form-control/form-control.service.ts:9-25 | the loop builds the group of GroupOf: its key set is the descriptor keys and each key's control is that of its last descriptor |
| FormControls.GroupOfLastWins | src/app/Shared/Services/form-control/form-control.service.ts:21 | for a duplicated key the last descriptor's control is the one kept |
| FormControls.InitialValue | src/app/Shared/Services/form-control/form-control.service.ts:21 | a truthy value is kept; undefined, null, false, 0 and '' all become '' |
| FormControls.RequiredWithoutValueFails | src/app/Shared/Services/form-control/form-control.service.ts:14-21 | a required descriptor without a value yields a control whose first error is required |
| FormControls.UnconstrainedAlwaysValid | src/app/Shared/Services/form-control/form-control.service.ts:13-19 | a non-required descriptor without validators yields a control with no validators, valid for every value |
| FormControls.DescriptorValidatorEnforced | src/app/Shared/Services/form-control/form-control.service.ts:17-19 | a value that fails one of the descriptor's validators makes the control invalid |
| FormControls.MinLengthRejectsShortValue | src/app/Shared/Services/form-control/form-control.service.ts:17-21 | with minLength(3) the value 'ab' yields the minlength error (3, 2) |
| FormControls.SubmittedRecordOfDescriptors | src/app/Shared/Components/generic-form/generic-form.component.ts:35-40 | the record a valid form emits has exactly the descriptor keys, and under each key the initial value of the last descriptor with that key |
| FormControls.RequiredFieldBlocksGroup | src/app/Shared/Services/form-control/form-control.service.ts:12-21 | a required descriptor without a value, last with its key, makes the whole group invalid |
| GenericForm.GenericFormComponent.constructor | src/app/Shared/Components/generic-form/generic-form.component.ts:25-28 | no descriptors, submit label 'Guardar', empty style class, nothing emitted |
| GenericForm.GenericFormComponent.NgOnInit | src/app/Shared/Components/generic-form/generic-form.component.ts:34-36 | the form group becomes the synthesis of the current descriptors; nothing else changes |
| GenericForm.GenericFormComponent.SetControlValue | src/app/Shared/Components/generic-form/generic-form.component.spec.ts:326-328 | a user edit changes only the edited control's value |
| GenericForm.GenericFormComponent.OnSubmit | src/app/Shared/Components/generic-form/generic-form.component.ts:38-42 | a valid group emits its key-to-value record exactly once; an invalid group emits nothing; group and descriptors are unchanged |
| Auth.AuthService.constructor | src/app/Security/Services/auth.service.ts:9-12 | the flag starts false; the stored token is left as the browser has it |
| Auth.AuthService.Login | src/app/Security/Services/auth.service.ts:14-24 | the result is true iff the credentials are admin/12345; success sets the flag and stores the token; failure changes neither |
| Auth.AuthService.Logout | src/app/Security/Services/auth.service.ts:26-29 | the flag is false and the token removed, whatever the prior state |
| Auth.AuthService.IsAuthenticated | src/app/Security/Services/auth.service.ts:31-33 | returns the current flag; changes nothing |
| Projects.CatchPhrase | src/app/Modules/Projects/Services/projects.service.ts:25 | absent without a company, otherwise the company's catch phrase (itself possibly absent) |
| Projects.ToProject | src/app/Modules/Projects/Services/projects.service.ts:22-26 | id kept, name as title, the company's catch phrase as description, absent without a company |
| Projects.ToProjects | src/app/Modules/Projects/Services/projects.service.ts:21-27 | one project per user, same length, the i-th project maps the i-th user |
| Projects.Titles | src/app/Shared/Validators/validators.ts:23-25 | the titles of the projects, in order |
| Projects.ProjectsService.constructor | src/app/Modules/Projects/Services/projects.service.ts:11-12 | no projects, not loading |
| Projects.ProjectsService.LoadProjects | src/app/Modules/Projects/Services/projects.service.ts:16-18 | loading is set before the response arrives; the list is untouched |
| Projects.ProjectsService.ReceiveUsers | src/app/Modules/Projects/Services/projects.service.ts:29-38 | success publishes the mapped users, failure the empty list; loading is false either way |
| Projects.ToProjectsConcat | src/app/Modules/Projects/Services/projects.service.ts:21-27 | the mapping distributes over concatenation (order is kept) |
| Projects.LoadedIdsAndTitles | src/app/Modules/Projects/Services/projects.service.ts:21-27 | the published ids and titles are the users' ids and names in upstream order |
| ProjectHome.SliceBound | src/app/Modules/Projects/Components/project-home/project-home.component.ts:56-59 | a slice bound is clamped into [0, length]: a non-negative bound is kept when in range, a negative one counts from the end |
| ProjectHome.Slice | src/app/Modules/Projects/Components/project-home/project-home.component.ts:56-59 | the contiguous run from the start bound up to the end bound, empty when they cross |
| ProjectHome.Window | src/app/Modules/Projects/Components/project-home/project-home.component.ts:56-59 | the page is a run of the list starting at the read start bound, never longer than the list |
| ProjectHome.ProjectHomeComponent.constructor | src/app/Modules/Projects/Components/project-home/project-home.component.ts:33-35 | first 0, rows 9, empty page |
| ProjectHome.ProjectHomeComponent.NgOnInit | src/app/Modules/Projects/Components/project-home/project-home.component.ts:43-47 | a load is requested iff the project list is empty |
| ProjectHome.ProjectHomeComponent.UpdatePaginatedProjects | src/app/Modules/Projects/Components/project-home/project-home.component.ts:55-60 | the page is the window of the current list |
| ProjectHome.ProjectHomeComponent.OnPageChange | src/app/Modules/Projects/Components/project-home/project-home.component.ts:49-53 | first and rows come from the event, then the page is the new window |
| ProjectHome.WindowIsClampedRun | src/app/Modules/Projects/Components/project-home/project-home.component.ts:55-60 | for first, rows >= 0 the page is the contiguous run from first, at most rows long, empty past the end |
| ProjectHome.AdjacentWindows | src/app/Modules/Projects/Components/project-home/project-home.component.ts:55-60 | consecutive pages neither overlap nor leave gaps |
| ProjectHome.NegativeStartTakesLast | src/app/Modules/Projects/Components/project-home/project-home.component.ts:56-59 | a negative start -k with an end at or past the list's end shows the last k projects |
| ProjectHome.NegativeRowsCountFromEnd | src/app/Modules/Projects/Components/project-home/project-home.component.ts:55-60 | a negative page size is read as an end counted from the end of the list, as slice does |

## Left out

- HTTP transport is not modelled. This covers the fetches in `task.service.ts` and `projects.service.ts`, `createProjects` and `updateProjects`, and the generic API gateway (`generic-api.service.ts`) with its error normalisation. A response is a `Fetch` parameter.
- Reactivity is not modelled: BehaviorSubject, `of`, signals and `effect`. Published values are plain fields, and returned observables are plain return values.
- ProjectHome.ProjectHomeComponent.UpdatePaginatedProjects: the `effect` that re-runs this method after every change of the project list is not modelled. A caller runs the method explicitly after a change.
- Auth.AuthService.Login: the 500 ms `delay` is not modelled. Browser storage is reduced to the ghost field `token`.
- GenericForm.GenericFormComponent.OnSubmit: requires that the form group exists. In the source, `onSubmit` before `ngOnInit` throws a TypeError because `formGroup` is still undefined. Angular's lifecycle runs `ngOnInit` first, so the model does not include that error path.
- FormControls.GroupValue: Angular's `formGroup.value` is modelled as the key-to-value record of the controls. `FormControls.SubmittedRecordOfDescriptors` relates it to the descriptors. Disabled controls, which Angular leaves out of the record, are not modelled.
- Validators.CheckMinLengthCustom: a truthy non-string value, such as `true` or a non-zero number, is modelled as passing. The source would throw, because it calls `trim` on the value.
- Validators.CheckUniqueName: a truthy non-string value is modelled as passing. The source would throw, because it calls `toLowerCase` on the value.
- Validators.ToLower: only ASCII letters are lower-cased. Unicode case mapping is not modelled.
- Validators.Trim: the white-space set is the ECMAScript one, applied to code points. JavaScript's `length` counts UTF-16 code units, so lengths differ for characters outside the Basic Multilingual Plane.
- The uniqueness validator reads the live project list each time it runs in the source. The model takes the titles as the validator's argument; `Projects.Titles` computes them.
- Numbers are integers. NaN, infinities and fractions are not modelled, whether as ids, orders, rows or validator bounds.
- Object and array values are not modelled. A descriptor or control value is undefined, null, a boolean, a number or a string. So Angular's `required` reading an empty array as missing is not captured.
- Angular form-control state is not modelled: touched, dirty, pristine, disabled controls and status events. A control's errors are a list in validator order. Angular merges them into one object keyed by error name.
- The cancel output, `showCancel`, `getMissingRequiredFields` and the missing-fields toast are not modelled. The component does not implement them.
- The checkbox descriptor is not modelled. Its source file is not part of this model.
- Navigation, toasts, templates and the feature components (login, task and project forms, lists and cards, footer) are not modelled. Routing and configuration are not modelled either. There is no route guard in the routes, and `authService.initialize()`, which the application config calls, does not exist in `auth.service.ts`.
