/**
  The older workflow designer page. Its parameter form is built from bare
  defaults (no declared types): each default picks a widget and an initial
  value. Its add-step handler forwards the form's values unchanged, and it
  imports and exports whole workflows as documents. Create, save, row
  selection, delete and move follow the same steps as in the newer page and
  are the members of WorkflowDesigner and StepEditing. The one difference is
  that this page calls json.dumps without ensure_ascii=False, so its JSON text
  escapes non-ASCII characters; the model leaves that text to the
  `rt.jsonDumps` the page is given.
*/
module LegacyDesigner {
  import opened Wrappers
  import opened PyValues
  import opened WorkflowStore
  import opened WorkflowService
  import opened StepEditing
  import opened WorkflowDesigner

  /** The input widget rendered for one parameter. */
  datatype Widget =
    | Checkbox(name: string, checked: bool)
    | Number(name: string, value: Value)
    | Textbox(name: string, text: string)

  /** The parameter area: whether it is shown, one widget per parameter, and the values the form starts with. */
  datatype ParamPanel = ParamPanel(visible: bool, inputs: seq<Widget>, values: Dict)

  /** What the page shows of the loaded workflow: its id (None when none is loaded), steps table, name and description. */
  datatype WorkflowView = WorkflowView(id: Option<string>, rows: seq<StepRow>, name: string, description: string)

  /** The page with no workflow loaded. */
  const ClearedView: WorkflowView := WorkflowView(None, [], "", "")

  /** The hidden, empty parameter area. */
  const HiddenPanel: ParamPanel := ParamPanel(false, [], [])

  /**
    The value a parameter's form entry starts with: a bool or a number is kept,
    None becomes "", anything else becomes its str().
  */
  function InitialValue(default: Value, rt: Runtime): (v: Value)
    ensures default.Bool? || default.Int? || default.Float? || default.Str? ==> v == default
    ensures default.Null? ==> v == Str("")
    ensures default.List? || default.Dict? ==> v == Str(rt.repr(default))
  {
    match default
      case Bool(_) => default
      case Int(_) => default
      case Float(_) => default
      case Null => Str("")
      case Str(_) => default
      case _ => Str(rt.repr(default))
  }

  /**
    The widget for a parameter. The bool test comes first, so a boolean
    default gets a checkbox even though a bool is also an int.
  */
  function WidgetFor(name: string, default: Value, rt: Runtime): (w: Widget)
    ensures w.name == name
    ensures w.Checkbox? <==> default.Bool?
    ensures w.Number? <==> default.Int? || default.Float?
    ensures w.Textbox? ==> InitialValue(default, rt) == Str(w.text)
  {
    match default
      case Bool(b) => Checkbox(name, b)
      case Int(_) => Number(name, default)
      case Float(_) => Number(name, default)
      case _ => Textbox(name, InitialValue(default, rt).s)
  }

  /** The value a widget shows when it is first drawn. */
  function Shown(w: Widget): (v: Value)
    ensures w.Checkbox? ==> v == Bool(w.checked)
    ensures w.Number? ==> v == w.value
    ensures w.Textbox? ==> v == Str(w.text)
  {
    match w
      case Checkbox(_, checked) => Bool(checked)
      case Number(_, value) => value
      case Textbox(_, text) => Str(text)
  }

  /** Every widget starts out showing the value the form records for it. */
  lemma WidgetShowsInitialValue(name: string, default: Value, rt: Runtime)
    ensures Shown(WidgetFor(name, default, rt)) == InitialValue(default, rt)
  {
  }

  /**
    Drawing the form again from its own values changes nothing: an initial
    value is already a bool, a number or a string.
  */
  lemma InitialValueIdempotent(default: Value, rt: Runtime)
    ensures InitialValue(InitialValue(default, rt), rt) == InitialValue(default, rt)
  {
  }

  /**
    update_params_inputs: no action or the placeholder, or an action the
    registry does not know (its lookup gives None, whose items() raises),
    hides the area with no widgets and no values. Otherwise there is one widget and one value per parameter, in the
    registry's order and under the parameter's name.
  */
  method UpdateParamsInputs(action: Option<string>, defaultsOf: string -> Option<Dict>, rt: Runtime)
    returns (panel: ParamPanel)
    ensures action.None? || action.value == "" || action.value == NoActionPlaceholder ==> panel == HiddenPanel
    ensures action.Some? && defaultsOf(action.value).None? ==> panel == HiddenPanel
    ensures panel.visible <==>
      action.Some? && action.value != "" && action.value != NoActionPlaceholder && defaultsOf(action.value).Some?
    ensures panel.visible ==>
      && var params := defaultsOf(action.value).value;
      && |panel.inputs| == |panel.values| == |params|
      && Keys(panel.values) == Keys(params)
      && (forall i :: 0 <= i < |params| ==>
            && panel.inputs[i] == WidgetFor(params[i].key, params[i].value, rt)
            && panel.values[i].value == InitialValue(params[i].value, rt))
  {
    if action.None? || action.value == "" || action.value == NoActionPlaceholder {
      return HiddenPanel;
    }
    var found := defaultsOf(action.value);
    if found.None? {
      return HiddenPanel;
    }
    var params := found.value;
    var inputs: seq<Widget> := [];
    var values: Dict := [];
    var i := 0;
    while i < |params|
      invariant 0 <= i <= |params|
      invariant |inputs| == |values| == i
      invariant forall k :: 0 <= k < i ==>
        && inputs[k] == WidgetFor(params[k].key, params[k].value, rt)
        && values[k] == Binding(params[k].key, InitialValue(params[k].value, rt))
    {
      var name, default := params[i].key, params[i].value;
      var widget: Widget;
      var value: Value;
      if default.Bool? {
        widget, value := Checkbox(name, default.b), default;
      } else if default.Int? || default.Float? {
        widget, value := Number(name, default), default;
      } else {
        var text := if default.Null? then "" else if default.Str? then default.s else rt.repr(default);
        widget, value := Textbox(name, text), Str(text);
      }
      inputs := inputs + [widget];
      values := values + [Binding(name, value)];
      i := i + 1;
    }
    panel := ParamPanel(true, inputs, values);
  }

  /**
    add_step: needs a loaded workflow and an action other than the
    placeholder, then hands the form's values to the service unchanged.
  */
  method AddStep(m: WorkflowManager, workflowId: Option<string>, action: string, paramsValues: Dict, rt: Runtime)
    returns (r: Result<seq<StepRow>, UiError>)
    requires m.Valid()
    modifies m
    ensures m.Valid() && m.order == old(m.order)
    ensures !Loaded(workflowId) ==> r == Err(NoWorkflow)
    ensures Loaded(workflowId) && action == NoActionPlaceholder ==> r == Err(NoAction)
    ensures (Loaded(workflowId) && action != NoActionPlaceholder && workflowId.value !in old(m.workflows)) ==>
      r == Err(Service(NotFound))
    ensures r.Err? ==> m.workflows == old(m.workflows)
    ensures r.Ok? <==> Loaded(workflowId) && action != NoActionPlaceholder && workflowId.value in old(m.workflows)
    ensures r.Ok? ==>
      && Loaded(workflowId) && action != NoActionPlaceholder && workflowId.value in old(m.workflows)
      && var w := AppendStep(old(m.workflows)[workflowId.value], Step(action, paramsValues));
      && m.workflows == old(m.workflows)[workflowId.value := w]
      && r.value == Rows(w.steps, rt)
  {
    if !Loaded(workflowId) {
      return Err(NoWorkflow);
    }
    if action == NoActionPlaceholder {
      return Err(NoAction);
    }
    var added := WorkflowService.AddStep(m, workflowId.value, action, paramsValues);
    if added.Err? {
      return Err(Service(added.error));
    }
    r := Ok(Rows(added.value.steps, rt));
  }

  /**
    import_workflow: no file is an error; a file that cannot be read as a
    workflow document is an error; either error leaves the page with no
    workflow loaded. Otherwise the document is imported and the page shows
    the stored workflow. `load` stands for opening the file and parsing its
    JSON.
  */
  method ImportWorkflow(m: WorkflowManager, file: Option<string>, load: string -> Option<ImportDoc>,
                        generatedId: string, rt: Runtime)
    returns (r: Outcome<UiError>, view: WorkflowView)
    requires m.Valid()
    modifies m
    ensures m.Valid()
    ensures file.None? ==> r == Fail(NoImportFile)
    ensures file.Some? && load(file.value).None? ==> r == Fail(UnreadableImport)
    ensures r.Fail? ==> m.workflows == old(m.workflows) && m.order == old(m.order) && view == ClearedView
    ensures r.Pass? <==> file.Some? && load(file.value).Some?
    ensures r.Pass? ==>
      && var w := Imported(load(file.value).value, generatedId);
      && m.workflows == old(m.workflows)[w.id := w]
      && m.order == (if w.id in old(m.workflows) then old(m.order) else old(m.order) + [w.id])
      && view == WorkflowView(Some(w.id), Rows(w.steps, rt), w.name, w.description)
  {
    if file.None? {
      return Fail(NoImportFile), ClearedView;
    }
    var doc := load(file.value);
    if doc.None? {
      return Fail(UnreadableImport), ClearedView;
    }
    var w := WorkflowService.ImportWorkflow(m, doc.value, generatedId);
    r, view := Pass, WorkflowView(Some(w.id), Rows(w.steps, rt), w.name, w.description);
  }

  /**
    export_workflow: needs a loaded workflow that is still in the store; the
    file written is that workflow's document.
  */
  function ExportWorkflow(m: WorkflowManager, workflowId: Option<string>): (r: Result<ImportDoc, UiError>)
    reads m
    requires m.Valid()
    ensures !Loaded(workflowId) ==> r == Err(NoWorkflow)
    ensures Loaded(workflowId) && workflowId.value !in m.workflows ==> r == Err(Service(NotFound))
    ensures r.Ok? <==> Loaded(workflowId) && workflowId.value in m.workflows
    ensures r.Ok? ==> r.value == ToDocument(m.workflows[workflowId.value])
    ensures r.Ok? ==> var w := m.workflows[workflowId.value];
      r.value == ImportDoc(workflowId, Some(w.name), Some(w.description), Some(w.steps))
  {
    if !Loaded(workflowId) then Err(NoWorkflow)
    else match GetWorkflow(m, workflowId.value)
      case None => Err(Service(NotFound))
      case Some(w) => Ok(ToDocument(w))
  }

  /**
    Importing an exported document restores the exported workflow exactly,
    under its own id, and putting it back into the store it came from leaves
    the store as it was.
  */
  lemma ExportThenImportRestores(m: WorkflowManager, workflowId: Option<string>, generatedId: string)
    requires m.Valid()
    requires ExportWorkflow(m, workflowId).Ok?
    ensures Imported(ExportWorkflow(m, workflowId).value, generatedId) == m.workflows[workflowId.value]
    ensures var w := Imported(ExportWorkflow(m, workflowId).value, generatedId); m.workflows[w.id := w] == m.workflows
  {
    ExportThenImport(m.workflows[workflowId.value], generatedId);
  }
}
