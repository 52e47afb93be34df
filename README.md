# Waifuc-UI workflow designer, data sources, history and settings — a Dafny model

Waifuc-UI is a Gradio front end for building image-collection workflows. A
workflow is a named list of steps. Each step is an action name with a
parameter dict. This project models the sequential logic that sits between
the pages and the stores behind them:

- **Workflows.** The workflow service creates, looks up, extends, overwrites
  and imports workflows held by the workflow manager (`WorkflowStore`,
  `WorkflowService`). Both designer pages choose a row of the steps table,
  delete the chosen step and swap it with a neighbour (`StepEditing`,
  `WorkflowDesigner`).
- **Parameter resolution.** The newer designer resolves the parameter form
  against each action's schema of `(default, declared type)` pairs, using a
  cursor over the form values (`ParamResolution`).
- **Older pages.** The older designer builds its form from bare defaults and
  imports and exports workflow documents (`LegacyDesigner`). The test page
  encodes actions as `"category - action"` and collects parameter values
  (`ActionTestPanel`).
- **Data sources.** The source service validates a data source and appends it
  to the in-memory saved list. The source page builds the parameters and
  loads a saved source back (`SourceService`, `SourcePanel`).
- **Components page.** It filters actions by a case-insensitive search
  (`ActionExplorer`).
- **History page.** It shows records, selects and views them, and clears old
  ones (`HistoryView`).
- **Configuration service.** Its setters validate a value before writing it
  (`ConfigService`).

`PyValues` gives the Python values these handlers pass around: None, bool,
int, float, str, list and dict, with dicts as ordered lists of bindings.
It also gives the Python truthiness, `str.strip` and `str.split` that the
handlers rely on.

## Collaborators passed in as parameters

The library calls `int()`, `float()`, `json.loads`, `json.dumps`, `str()` of
a container and `str.lower` are the fields of the `PyValues.Runtime` value.
Those that can raise return an `Option`.

The stores behind the services are not shown, so the model stands in for
them as follows:

- The workflow manager is the `WorkflowStore.WorkflowManager` class. It is
  specified by the contract the service relies on: lookup by id, a stable
  enumeration order, and a save that inserts or overwrites.
- The id it would generate, and whether its create succeeds, are method
  parameters.
- The action registry, the source registry and the history service calls are
  function parameters.
- `os.path.exists`, `os.path.isdir`, and opening and parsing an import file
  are function parameters too.

## Exceptions

An exception that a handler does not catch is the `Unhandled` error variant
of that handler's error type. Examples are an `AttributeError` on a missing
workflow, an `IndexError`, and a `TypeError` from `int(None)`. An exception
the handler turns into a message is a named error variant.

## Model

The older designer page in `workflow.py` repeats five handlers of the newer
page step for step: create (workflow.py:128-137), save (146-160), row
selection (169-186), delete (218-234) and move (243-265). They differ in one
respect: the older page calls `json.dumps` without `ensure_ascii=False`. Each
handler is modelled once, by the member cited below for the newer page, and
the JSON text is whatever the page's `rt.jsonDumps` produces.

| member | source | states |
|---|---|---|
| WorkflowStore.WorkflowManager.Save | src/services/workflow_service.py:41 | saving inserts or overwrites exactly the workflow's own id; a new id is appended to the enumeration order; ids stay unique and each workflow is stored under its own id |
| WorkflowStore.WorkflowManager.Create | src/services/workflow_service.py:16 | a successful create stores a workflow with no steps under an id not used before; a failed create leaves the store untouched |
| WorkflowService.CreateWorkflow | src/services/workflow_service.py:14-19 | fails with WorkflowError exactly when the manager returns no workflow, leaving the store as it was; otherwise returns the new workflow with no steps, now stored under its id, with the id appended last to the enumeration order |
| WorkflowService.GetWorkflow | src/services/workflow_service.py:22-25 | None exactly for an unknown id; otherwise the workflow stored under that id |
| WorkflowService.GetAllWorkflows | src/services/workflow_service.py:28-31 | one workflow per stored id, in the manager's order, with no id listed twice; the count equals the number of stored workflows |
| WorkflowService.OrderCoversStore | src/services/workflow_service.py:30-31 | a duplicate-free listing that covers a set of ids has exactly as many entries as the set |
| WorkflowService.AppendStep | src/services/workflow_service.py:39-40 | the new step list is the old one, untouched, followed by exactly one new step; the id, name and description are unchanged |
| WorkflowService.AddStep | src/services/workflow_service.py:34-42 | an unknown id is an error and leaves the store as it was; otherwise only that workflow changes, gaining exactly one step at the end |
| WorkflowService.Overwrite | src/services/workflow_service.py:50-52 | name, description and the whole step list come from the data, in order; a missing steps key gives no steps; the id is kept |
| WorkflowService.SaveWorkflow | src/services/workflow_service.py:45-53 | an unknown id is an error and leaves the store as it was; otherwise only that workflow is replaced by its overwritten form |
| WorkflowService.Imported | src/services/workflow_service.py:58-63 | the supplied id is kept when present, otherwise the generated id is used; name and description default to ""; steps are copied in order |
| WorkflowService.ImportWorkflow | src/services/workflow_service.py:56-65 | the imported workflow is stored under its id, replacing any workflow with that id; no other workflow changes; a new id is appended last to the enumeration order and an existing id keeps its place |
| WorkflowService.ToDocument | workflow.py:337-341 | the exported document carries every field of the workflow |
| WorkflowService.ExportThenImport | src/services/workflow_service.py:56-65 | importing an exported workflow gives back the same workflow, whatever id the generator offers |
| WorkflowService.ImportWithoutId | src/services/workflow_service.py:63 | a document without an id is imported under the generated id with its other fields intact |
| StepEditing.Rows | src/ui/components/workflow.py:308 | one table row per step, in order, holding the action name and the parameters as JSON |
| StepEditing.ConfirmSelectStep | src/ui/components/workflow.py:213-230 | an empty table is refused; row r is accepted exactly when int(r) is defined and 1 <= int(r) <= number of rows, and then the index is int(r) - 1; a non-integer is its own error |
| StepEditing.RemoveAt | src/ui/components/workflow.py:306 | pop(i) leaves the steps before i in place and shifts those after i down by one |
| StepEditing.RemoveAtMultiset | src/ui/components/workflow.py:306 | pop(i) loses exactly the i-th step and keeps every other one |
| StepEditing.DeleteAt | src/ui/components/workflow.py:304-306 | the delete is allowed exactly when the index is inside a non-empty step list, and then removes that one step |
| StepEditing.Swap | src/ui/components/workflow.py:332 | positions i and j are exchanged and every other position is unchanged |
| StepEditing.SwapMultiset | src/ui/components/workflow.py:332 | a swap keeps the same steps |
| StepEditing.Move | src/ui/components/workflow.py:331-338 | "up" with i > 0 swaps i and i-1; "down" with i < len-1 swaps i and i+1; any other direction or a move past either end is refused (CannotMove), except an "up" from an index past the end, which is the IndexError (StaleIndex) |
| StepEditing.MoveIsPermutation | src/ui/components/workflow.py:331-339 | a successful move keeps the same steps |
| StepEditing.MoveUpThenDown | src/ui/components/workflow.py:331-335 | moving a step up and then moving it down from its new row restores the list |
| StepEditing.RepeatedMoveUpUndoes | src/ui/components/workflow.py:345-349 | as written, a second "up" at the same selected index swaps the same two steps back (see Findings) |
| StepEditing.FollowMove | src/ui/components/workflow.py:331-336 | the row the moved step lands on: one above for "up", one below for "down" |
| StepEditing.FollowMoveTracksStep | src/ui/components/workflow.py:331-336 | after a successful move, the step at the followed row is the step that was selected |
| ParamResolution.CoercionOf | src/ui/components/workflow.py:268-284 | the conversions are tried in the source's order: int() exactly when the type is Optional[int] or the default is an int (bool included); otherwise float() exactly when the type is Optional[float] or the default is a float; otherwise JSON exactly for Optional[dict], Optional[list] or a dict or list default; the value is kept verbatim in every other case |
| ParamResolution.Supplied | src/ui/components/workflow.py:252-258 | the cursor supplies the i-th form value while values remain, and nothing after that |
| ParamResolution.ResolveParam | src/ui/components/workflow.py:252-286 | a missing or blank value gives None for the five Optional types and a "missing" or "required" error otherwise; int, float and JSON conversions either succeed with the converted value or fail with their own error; anything else is stored verbatim |
| ParamResolution.ErrorPersists | src/ui/components/workflow.py:292-294 | the first resolution error ends resolution, and the result is that error |
| ParamResolution.ResolveStepParams | src/ui/components/workflow.py:247-286 | the cursor loop computes exactly the schema-order resolution of the form values |
| ParamResolution.ResolvedPrefixShape | src/ui/components/workflow.py:249-286 | resolution succeeds exactly when every parameter resolves; the dict then has one entry per parameter, in schema order, holding that parameter's resolved value |
| ParamResolution.ResolvedShape | src/ui/components/workflow.py:246-249 | a successful resolution's keys are exactly the schema's parameter names, in order |
| ParamResolution.FirstFailureReported | src/ui/components/workflow.py:257-282 | a failed resolution reports the error of the first parameter that does not resolve |
| ParamResolution.ExhaustedValuesAreNone | src/ui/components/workflow.py:252-256 | when the values run out, a successful resolution has only Optional parameters past them, each set to None |
| ParamResolution.MissingRequiredFails | src/ui/components/workflow.py:252-257 | a required parameter with no value left makes the whole resolution fail |
| WorkflowDesigner.CreateWorkflow | src/ui/components/workflow.py:172-181 | an empty or all-whitespace name is refused before the store is touched; otherwise the new workflow's id is returned, the workflow is stored with no steps, and its id is appended last to the enumeration order |
| WorkflowDesigner.SaveWorkflow | src/ui/components/workflow.py:190-204 | succeeds exactly for a loaded workflow that is in the store; the new name and description are then saved and the steps kept; on error nothing changes |
| WorkflowDesigner.AddStep | src/ui/components/workflow.py:239-294 | no workflow or the placeholder action is refused, and an unknown action raises; a resolution error is reported and adds no step; an id not in the store is an error; succeeds exactly when all of these checks pass, and then exactly the resolved step is appended and the table shows the new step list |
| WorkflowDesigner.DeleteStep | src/ui/components/workflow.py:297-313 | succeeds exactly for a loaded workflow in the store with a selection inside its steps; it then removes exactly that step, saves, and clears the selection; each failing guard has its own error, and on error the store and the selection are unchanged |
| WorkflowDesigner.MoveStep | src/ui/components/workflow.py:322-344 | the as-written move succeeds exactly when the step list allows the move; the store then gets the moved list; a refused move raises and saves nothing; the selection is not updated |
| WorkflowDesigner.MoveStepTracked | src/ui/components/workflow.py:322-349 | the corrected move: the same guards, errors and store change as the as-written move, and on success the new selection points at the step that was moved |
| LegacyDesigner.InitialValue | workflow.py:97-115 | a bool or number default is kept as is; None starts as ""; any other default starts as its str() |
| LegacyDesigner.WidgetFor | workflow.py:98-109 | a checkbox exactly for a bool default, tested before numbers; a number field exactly for an int or float default; a text box shows the initial value |
| LegacyDesigner.Shown | workflow.py:98-115 | the value each kind of widget shows when first drawn |
| LegacyDesigner.WidgetShowsInitialValue | workflow.py:97-115 | every widget starts out showing the value the form records for its parameter |
| LegacyDesigner.InitialValueIdempotent | workflow.py:97-115 | drawing the form again from its own values changes nothing |
| LegacyDesigner.UpdateParamsInputs | workflow.py:86-119 | no action, the placeholder, or an action the registry does not know hides the area with no widgets and no values; otherwise the area is shown with one widget and one initial value per parameter, in order, under exactly the parameter names; an action with no parameters is shown empty |
| LegacyDesigner.AddStep | workflow.py:195-209 | no workflow or the placeholder action is refused; succeeds exactly for a loaded workflow in the store and a real action; the form's values are then appended verbatim as the new last step |
| LegacyDesigner.ImportWorkflow | workflow.py:306-324 | no file and an unreadable file are errors that leave the store unchanged and the page with no workflow loaded; otherwise the document is imported, the enumeration order is updated as for any save, and the page shows the stored workflow |
| LegacyDesigner.ExportWorkflow | workflow.py:333-344 | no workflow id, or an id not in the store, is an error; otherwise the document of that stored workflow, carrying its id, name, description and steps |
| LegacyDesigner.ExportThenImportRestores | workflow.py:306-344 | importing an exported document restores the workflow under its own id and leaves the store as it was |
| ActionTestPanel.FirstSep | src/workflow_test_fixed.py:52 | the leftmost occurrence of " - ", or none at all |
| ActionTestPanel.LastSegment | src/workflow_test_fixed.py:52 | split(" - ")[-1] is a suffix of the text that contains no separator, and is the whole text when there is no separator |
| ActionTestPanel.Labels | src/workflow_test_fixed.py:28 | one "category - action" entry per action of a category, in order |
| ActionTestPanel.Choices | src/workflow_test_fixed.py:28 | one entry per registered action, in registry order, reading "category - action" with that action's category |
| ActionTestPanel.DecodeAll | src/workflow_test_fixed.py:52 | each entry decodes to its last " - " segment |
| ActionTestPanel.ActionNameOfLabel | src/workflow_test_fixed.py:28-52 | an entry decodes back to its action when the action has no " - " and the category does not end in " -"; the category may contain " - " |
| ActionTestPanel.DecodeAllAppend | src/workflow_test_fixed.py:52 | decoding works entry by entry, so it distributes over concatenation |
| ActionTestPanel.LabelsDecode | src/workflow_test_fixed.py:28-52 | the entries of a category that does not end in " -", with actions free of " - ", decode to its actions |
| ActionTestPanel.ChoicesDecodeToActions | src/workflow_test_fixed.py:28-52 | when no category ends in " -" and no action contains " - ", decoding the whole dropdown lists exactly the registered actions, in registry order |
| ActionTestPanel.RenderParams | src/workflow_test_fixed.py:47-79 | nothing is drawn without a choice; otherwise the form of the decoded action, with one widget per parameter chosen by its default, or an error when the registry has no such action |
| ActionTestPanel.ChosenEntryDrawsItsAction | src/workflow_test_fixed.py:28-58 | choosing a registered action's entry draws that action's form, under the same naming condition |
| ActionTestPanel.CollectParams | src/workflow_test_fixed.py:83-100 | no choice gives only a message; a count mismatch is an error; success happens exactly when no required (None-default) parameter is blank, and stores each value verbatim under its parameter name in order; once an entry is chosen and the counts agree, every failure is MissingRequired naming the first blank required parameter |
| SourceService.GetSourceTypes | src/services/source_service.py:17-23 | each category's sources, extended in category order |
| SourceService.AllSourcesMembership | src/services/source_service.py:17-23 | a type is offered exactly when some category lists it |
| SourceService.ValidateSource | src/services/source_service.py:26-35 | a local source fails on a missing or blank directory and on a stripped directory that does not exist, and passes otherwise; any other source fails exactly when it has an empty "tags" entry; nothing is changed |
| SourceService.UntaggedSourcesPass | src/services/source_service.py:34-35 | parameters without "tags" always pass for a non-local source |
| SourceService.SourceRepository.SaveSource | src/services/source_service.py:38-49 | a value that is not a dict with "type" and "params" is rejected, then a type not offered by the registry; an accepted source is appended at the end; on rejection the list is unchanged |
| SourceService.SourceRepository.GetSavedSources | src/services/source_service.py:52-59 | the saved sources in insertion order, each in saved form |
| SourcePanel.UpdateParams | src/ui/components/source.py:39-45 | a local source shows only the directory field; any other type shows only tags and limit |
| SourcePanel.BuildParams | src/ui/components/source.py:58-62 | a local source gets only its directory; any other gets its whitespace-split tags (none when empty or None) and int(limit), and a limit int() refuses raises |
| SourcePanel.Words | src/ui/components/source.py:61 | the tag list is str.split() of the field, word by word |
| SourcePanel.WordsEmptyIffBlank | src/ui/components/source.py:61 | the tag list is empty exactly when the field is blank |
| SourcePanel.ValidateBuiltTags | src/ui/components/source.py:60-63 | built non-local parameters pass validation exactly when the tag list is truthy |
| SourcePanel.BlankTagsAreRefused | src/ui/components/source.py:60-65 | whitespace-only tags are refused by validation, so such a source is never saved |
| SourcePanel.TaggedSourcesPass | src/ui/components/source.py:60-65 | tags with at least one word pass validation |
| SourcePanel.SavedRows | src/ui/components/source.py:66-67 | one [type, json(params)] row per saved source, in order |
| SourcePanel.SourceData | src/ui/components/source.py:64 | the built source dict has the type and the params, the shape save_source accepts |
| SourcePanel.SelectSource | src/ui/components/source.py:53-70 | a missing type is refused; an error building the parameters, a validation failure or an unregistered type is reported and leaves the saved list unchanged; succeeds exactly when the type is given, the parameters build and validate, and the registry offers the type; the source is then appended last and the table shows every saved source |
| SourcePanel.LoadSavedSource | src/ui/components/source.py:89-98 | an empty table is refused; otherwise the first row is read as type and JSON parameters, and a malformed row or bad JSON raises |
| SourcePanel.LoadFirstSavedSource | src/ui/components/source.py:66-96 | loading the first row of the saved-sources table gives back the first saved source whenever JSON reads back what it wrote |
| ActionExplorer.Filter | src/ui/components/components.py:40-41 | the kept actions all match the lower-cased search, and there are no more of them than actions |
| ActionExplorer.FilterMembership | src/ui/components/components.py:41 | an action is kept exactly when it is listed and matches the search |
| ActionExplorer.FilterAppend | src/ui/components/components.py:41 | filtering keeps the registry's order |
| ActionExplorer.FilterKeepsAllMatching | src/ui/components/components.py:41 | a search every action matches keeps the list as it is |
| ActionExplorer.ActionRows | src/ui/components/components.py:42-47 | one [action, json(params or {})] row per action, in order, exactly when no parameter lookup raises; otherwise the error of the first one that does |
| ActionExplorer.ParamsOrEmpty | src/ui/components/components.py:45 | missing parameters are shown as {} |
| ActionExplorer.Kept | src/ui/components/components.py:38-41 | an empty search keeps every action; otherwise the filtered list |
| ActionExplorer.UpdateActions | src/ui/components/components.py:34-51 | no category gives the placeholder row; no rows gives the placeholder row; an exception gives a single error row; otherwise the rows of the kept actions |
| ActionExplorer.SearchListsExactlyMatches | src/ui/components/components.py:34-48 | with a search typed, the table lists exactly the category's actions that match it |
| HistoryView.RowOf | src/ui/components/history.py:35-36 | a row holds id, workflow name, start time, status and image count |
| HistoryView.RefreshRecords | src/ui/components/history.py:32-38 | one row per record in the service's order, or the service's error |
| HistoryView.SelectRecord | src/ui/components/history.py:43-46 | None exactly for an empty table, otherwise index 0 |
| HistoryView.ViewDetail | src/ui/components/history.py:55-63 | needs a selection and a non-empty table; the record is looked up by the id in the selected row's first column; an existing record is returned, a missing one is its own error, and a service error is reported with its message |
| HistoryView.OpenOutputDirectory | src/ui/components/history.py:72-83 | the selected record must exist and have a non-empty output directory, otherwise nothing is opened; such a directory is opened, and a failure to open it is reported with its message |
| HistoryView.OpenedRecordIsViewable | src/ui/components/history.py:55-83 | an opened directory belongs to the record view_detail shows |
| HistoryView.RefreshSelectView | src/ui/components/history.py:32-62 | the view button runs select and view on the same click, and view sees the earlier selection; after a refresh the first click only selects row 0 and the next click shows the first record |
| HistoryView.ClearDays | src/ui/components/history.py:94-98 | "一周前" maps to 7 days, "一个月前" to 30, and anything else to None (all records) |
| HistoryView.ClearRecords | src/ui/components/history.py:92-102 | after a successful clear the table is empty and the selection is None; on a service error the page is unchanged |
| HistoryView.NothingSelectedAfterClear | src/ui/components/history.py:92-100 | after a clear, view_detail reports that nothing is selected |
| ConfigService.ConfigStore.Get | src/services/config_service.py:50-52 | the stored value, or the default when the key is unset |
| ConfigService.ConfigStore.Set | src/services/config_service.py:55-57 | writes that key and no other |
| ConfigService.ConfigStore.OutputDirectory | src/services/config_service.py:14-16 | "" when unset |
| ConfigService.ConfigStore.TempDirectory | src/services/config_service.py:26-28 | "" when unset |
| ConfigService.ConfigStore.LogLevel | src/services/config_service.py:38-40 | "INFO" when unset |
| ConfigService.ConfigStore.SetOutputDirectory | src/services/config_service.py:19-23 | "" is written without a check; any other value is written exactly when it is a directory; a refusal writes nothing; the log level stays valid |
| ConfigService.ConfigStore.SetTempDirectory | src/services/config_service.py:31-35 | the same rule for the temporary directory |
| ConfigService.ConfigStore.SetLogLevel | src/services/config_service.py:43-47 | only DEBUG, INFO, WARNING and ERROR are written; anything else is refused and nothing is written; after a successful set the reported level is one of the four, and after a refused one it is one of the four if it was before |
| PyValues.Get | src/services/source_service.py:29 | a dict lookup finds a value exactly when the key is present |
| PyValues.StripEmptyIffBlank | src/ui/components/workflow.py:174 | str.strip() is empty exactly when the text is all whitespace |
| PyValues.SplitWordsAreWords | src/ui/components/source.py:61 | str.split() gives non-empty words without whitespace |
| PyValues.SplitWordsEmptyIffBlank | src/ui/components/source.py:61 | str.split() is empty exactly when the text is all whitespace |

## Left out

- The execution engine and task service: they delegate to an engine and to
  PyQt signals whose code is not part of this model.
- Gradio layout and event wiring: widget construction and `.click` bindings.
  This covers `on_workflow_select` and `update_action_dropdown`, and the
  newer page's `render_params_inputs`, which only builds widgets.
- The settings page, the app shell, `src/main.py` and `history_service.py`.
  They are glue or a one-line mapping.
- Timestamps and any workflow fields other than id, name, description and
  steps: `to_dict()` and the `Workflow` class are not part of this model.
- WorkflowStore.WorkflowManager.Create: assumes the manager never issues an
  id already in the store. The manager's id generator is not part of this
  model.
- SourceService.SourceRepository.GetSavedSources: returns the list by value.
  The source returns the class-level list itself, so a caller could alias and
  change it.
- `HistoryService.clear_records` and `open_output_directory` are not defined
  in the history service shown. They are parameters of
  `HistoryView.ClearRecords` and `HistoryView.OpenOutputDirectory`.
- pandas tables are lists of rows. `steps_table_value.empty` is the test for
  an empty list. `not df` in `load_saved_source` and the history handlers
  would raise on a real DataFrame; the model reads it as "no rows".
- Floating point: float values are `real`. The precision of the number
  widgets is not modelled.
- Unicode `str.lower`, `int()`, `float()`, `json.loads`, `json.dumps` and
  `repr` are uninterpreted fields of `Runtime`.
- ParamResolution.ResolveParam: does not model `json.loads` raising
  `TypeError` on a non-string value. That exception is not caught by
  `add_step`; the model reports it as `InvalidJson`.
- The import file's opening and JSON parsing are the `load` parameter of
  `LegacyDesigner.ImportWorkflow`. A document whose fields have the wrong
  types counts as unreadable.
- ActionTestPanel.ActionNameOfLabel: needs an action without " - " and a
  category that does not end in " -". This is sufficient, not necessary: a
  category such as "x - -" still decodes correctly, but the model does not
  state the exact condition.
- StepEditing.ConfirmSelectStep: `int(None)` raises a `TypeError`, which the
  source reports through its generic handler with the exception's own
  message. The model reports every failed `int()` as `NotAnInteger`.
- The older designer page's `json.dumps` calls omit `ensure_ascii=False`,
  so its JSON text escapes non-ASCII characters where the newer page's does
  not. The model shares one handler for both pages and leaves the text to
  the `rt.jsonDumps` each page is given; it does not distinguish the two
  encodings.
- Logging throughout.

## Findings

| source | as written | input that shows it | evidently intended | confidence | as-written member | corrected member |
|---|---|---|---|---|---|---|
| src/ui/components/workflow.py:322-349 (and workflow.py:243-275) | `move_step` swaps the selected step with its neighbour, but its outputs leave `selected_step_index` as it was, so the selection now points at the other step | steps [A, B, C] with row 3 selected: "up" gives [A, C, B]; pressing "up" again swaps rows 3 and 2 back to [A, B, C] instead of giving [C, A, B] | the selection follows the moved step, so repeated moves keep moving the same step | medium, not executed | StepEditing.RepeatedMoveUpUndoes, WorkflowDesigner.MoveStep | WorkflowDesigner.MoveStepTracked, StepEditing.FollowMoveTracksStep |
