/**
  The workflow designer's handlers: create and save a workflow, choose a step,
  add a step from the parameter form, delete the chosen step and move it. Each
  handler checks its inputs before calling the workflow service and reports a
  failure as a message; the handlers shared by both designer pages are
  modelled once here.
*/
module WorkflowDesigner {
  import opened Wrappers
  import opened PyValues
  import opened WorkflowStore
  import opened WorkflowService
  import opened StepEditing
  import opened ParamResolution

  /** The action dropdown's placeholder when a category has no actions. */
  const NoActionPlaceholder: string := "无操作可用"

  /** What a handler reports instead of a result. `Unhandled` is an exception no handler catches. */
  datatype UiError =
    | BlankName
    | NoWorkflow
    | NoSelection
    | NoAction
    | InvalidStepIndex
    | CannotMoveStep
    | NoImportFile
    | UnreadableImport
    | BadParam(error: ParamError)
    | Service(cause: WorkflowError)
    | Unhandled

  /** `if not workflow_id`: None and "" both mean no workflow is loaded. */
  predicate Loaded(workflowId: Option<string>)
  {
    workflowId.Some? && workflowId.value != ""
  }

  /**
    create_workflow: a name that is empty or all whitespace is rejected before
    the store is touched; otherwise the new workflow's id is returned.
  */
  method CreateWorkflow(m: WorkflowManager, name: string, description: string, newId: Option<string>)
    returns (r: Result<string, UiError>)
    requires m.Valid()
    requires newId.Some? ==> newId.value !in m.workflows
    modifies m
    ensures m.Valid()
    ensures AllSpace(name) ==> r == Err(BlankName)
    ensures r.Err? ==> m.workflows == old(m.workflows) && m.order == old(m.order)
    ensures r.Ok? <==> !AllSpace(name) && newId.Some?
    ensures r.Ok? ==> r.value == newId.value && m.workflows == old(m.workflows)[r.value := Workflow(r.value, name, description, [])]
    ensures r.Ok? ==> m.order == old(m.order) + [r.value]
  {
    StripEmptyIffBlank(name);
    if Strip(name) == "" {
      return Err(BlankName);
    }
    var created := WorkflowService.CreateWorkflow(m, name, description, newId);
    if created.Err? {
      return Err(Service(created.error));
    }
    r := Ok(created.value.id);
  }

  /** save_workflow: renames and re-describes the loaded workflow, keeping its steps. */
  method SaveWorkflow(m: WorkflowManager, workflowId: Option<string>, name: string, description: string)
    returns (r: Result<Workflow, UiError>)
    requires m.Valid()
    modifies m
    ensures m.Valid() && m.order == old(m.order)
    ensures !Loaded(workflowId) ==> r == Err(NoWorkflow)
    ensures Loaded(workflowId) && workflowId.value !in old(m.workflows) ==> r == Err(Service(NotFound))
    ensures r.Err? ==> m.workflows == old(m.workflows)
    ensures r.Ok? <==> Loaded(workflowId) && workflowId.value in old(m.workflows)
    ensures r.Ok? ==>
      && r.value == old(m.workflows)[workflowId.value].(name := name, description := description)
      && m.workflows == old(m.workflows)[workflowId.value := r.value]
  {
    if !Loaded(workflowId) {
      return Err(NoWorkflow);
    }
    var w := GetWorkflow(m, workflowId.value);
    if w.None? {
      return Err(Service(NotFound));
    }
    var saved := WorkflowService.SaveWorkflow(m, WorkflowData(w.value.id, name, description, Some(w.value.steps)));
    r := Ok(w.value.(name := name, description := description));
  }

  /**
    add_step with schema-driven parameters: the form values are resolved against
    the action's schema; any guard or resolution error means no step is added.
    `schemaOf` is the action registry's get_action_params.
  */
  method AddStep(m: WorkflowManager, workflowId: Option<string>, action: string, values: seq<Value>,
                 schemaOf: string -> Option<Schema>, rt: Runtime)
    returns (r: Result<seq<StepRow>, UiError>)
    requires m.Valid()
    modifies m
    ensures m.Valid() && m.order == old(m.order)
    ensures !Loaded(workflowId) ==> r == Err(NoWorkflow)
    ensures Loaded(workflowId) && action == NoActionPlaceholder ==> r == Err(NoAction)
    ensures Loaded(workflowId) && action != NoActionPlaceholder && schemaOf(action).None? ==> r == Err(Unhandled)
    ensures r.Err? ==> m.workflows == old(m.workflows)
    ensures (Loaded(workflowId) && action != NoActionPlaceholder && schemaOf(action).Some?
      && Resolve(schemaOf(action).value, values, rt).Err?) ==>
      r == Err(BadParam(Resolve(schemaOf(action).value, values, rt).error))
    ensures (Loaded(workflowId) && action != NoActionPlaceholder && schemaOf(action).Some?
      && Resolve(schemaOf(action).value, values, rt).Ok? && workflowId.value !in old(m.workflows)) ==>
      r == Err(Service(NotFound))
    ensures r.Ok? <==>
      && Loaded(workflowId) && workflowId.value in old(m.workflows) && action != NoActionPlaceholder
      && schemaOf(action).Some? && Resolve(schemaOf(action).value, values, rt).Ok?
    ensures r.Ok? ==>
      && Loaded(workflowId) && workflowId.value in old(m.workflows) && action != NoActionPlaceholder
      && schemaOf(action).Some? && Resolve(schemaOf(action).value, values, rt).Ok?
      && var step := Step(action, Resolve(schemaOf(action).value, values, rt).value);
      && m.workflows == old(m.workflows)[workflowId.value := AppendStep(old(m.workflows)[workflowId.value], step)]
      && r.value == Rows(m.workflows[workflowId.value].steps, rt)
  {
    if !Loaded(workflowId) {
      return Err(NoWorkflow);
    }
    if action == NoActionPlaceholder {
      return Err(NoAction);
    }
    var schema := schemaOf(action);
    if schema.None? {
      return Err(Unhandled);
    }
    var params := ResolveStepParams(schema.value, values, rt);
    if params.Err? {
      return Err(BadParam(params.error));
    }
    var added := WorkflowService.AddStep(m, workflowId.value, action, params.value);
    if added.Err? {
      return Err(Service(added.error));
    }
    r := Ok(Rows(added.value.steps, rt));
  }

  /**
    delete_step: needs a loaded workflow, a selection and an index inside the
    step list; removes exactly that step, saves, and clears the selection. On
    any error the selection is kept.
  */
  method DeleteStep(m: WorkflowManager, workflowId: Option<string>, selected: Option<nat>, rt: Runtime)
    returns (r: Result<seq<StepRow>, UiError>, selection: Option<nat>)
    requires m.Valid()
    modifies m
    ensures m.Valid() && m.order == old(m.order)
    ensures !Loaded(workflowId) ==> r == Err(NoWorkflow)
    ensures Loaded(workflowId) && selected.None? ==> r == Err(NoSelection)
    ensures Loaded(workflowId) && selected.Some? && workflowId.value !in old(m.workflows) ==> r == Err(Unhandled)
    ensures (Loaded(workflowId) && selected.Some? && workflowId.value in old(m.workflows)
      && selected.value >= |old(m.workflows)[workflowId.value].steps|) ==> r == Err(InvalidStepIndex)
    ensures r.Err? ==> m.workflows == old(m.workflows) && selection == selected
    ensures r.Ok? <==>
      && Loaded(workflowId) && selected.Some? && workflowId.value in old(m.workflows)
      && selected.value < |old(m.workflows)[workflowId.value].steps|
    ensures r.Ok? ==>
      && Loaded(workflowId) && selected.Some? && workflowId.value in old(m.workflows)
      && var w := old(m.workflows)[workflowId.value];
      && m.workflows == old(m.workflows)[workflowId.value := w.(steps := RemoveAt(w.steps, selected.value))]
      && r.value == Rows(RemoveAt(w.steps, selected.value), rt)
      && selection.None?
  {
    selection := selected;
    if !Loaded(workflowId) {
      return Err(NoWorkflow), selection;
    }
    if selected.None? {
      return Err(NoSelection), selection;
    }
    var w := GetWorkflow(m, workflowId.value);
    if w.None? {
      return Err(Unhandled), selection;
    }
    var steps := DeleteAt(w.value.steps, selected.value);
    if steps.None? {
      return Err(InvalidStepIndex), selection;
    }
    var saved := WorkflowService.SaveWorkflow(m, WorkflowData(w.value.id, w.value.name, w.value.description, steps));
    r, selection := Ok(Rows(steps.value, rt)), None;
  }

  /**
    move_step, as written: swaps the chosen step with its neighbour and saves;
    a move past either end raises without saving. The selection is not part of
    its result, so it keeps pointing at the old index.
  */
  method MoveStep(m: WorkflowManager, workflowId: Option<string>, selected: Option<nat>, direction: string, rt: Runtime)
    returns (r: Result<seq<StepRow>, UiError>)
    requires m.Valid()
    modifies m
    ensures m.Valid() && m.order == old(m.order)
    ensures !Loaded(workflowId) ==> r == Err(NoWorkflow)
    ensures Loaded(workflowId) && selected.None? ==> r == Err(NoSelection)
    ensures Loaded(workflowId) && selected.Some? && workflowId.value !in old(m.workflows) ==> r == Err(Unhandled)
    ensures (Loaded(workflowId) && selected.Some? && workflowId.value in old(m.workflows)
      && Move(old(m.workflows)[workflowId.value].steps, selected.value, direction) == Err(CannotMove)) ==>
      r == Err(CannotMoveStep)
    ensures (Loaded(workflowId) && selected.Some? && workflowId.value in old(m.workflows)
      && Move(old(m.workflows)[workflowId.value].steps, selected.value, direction) == Err(StaleIndex)) ==>
      r == Err(Unhandled)
    ensures r.Err? ==> m.workflows == old(m.workflows)
    ensures r.Ok? <==>
      && Loaded(workflowId) && selected.Some? && workflowId.value in old(m.workflows)
      && Move(old(m.workflows)[workflowId.value].steps, selected.value, direction).Ok?
    ensures r.Ok? ==>
      && Loaded(workflowId) && selected.Some? && workflowId.value in old(m.workflows)
      && var w := old(m.workflows)[workflowId.value];
      && Move(w.steps, selected.value, direction).Ok?
      && var moved := Move(w.steps, selected.value, direction).value;
      && m.workflows == old(m.workflows)[workflowId.value := w.(steps := moved)]
      && r.value == Rows(moved, rt)
  {
    if !Loaded(workflowId) {
      return Err(NoWorkflow);
    }
    if selected.None? {
      return Err(NoSelection);
    }
    var w := GetWorkflow(m, workflowId.value);
    if w.None? {
      return Err(Unhandled);
    }
    var steps := w.value.steps;
    var index := selected.value;
    if direction == "up" && index > 0 {
      if index >= |steps| {
        return Err(Unhandled);
      }
      steps := steps[index := steps[index - 1]][index - 1 := steps[index]];
    } else if direction == "down" && index < |steps| - 1 {
      steps := steps[index := steps[index + 1]][index + 1 := steps[index]];
    } else {
      return Err(CannotMoveStep);
    }
    var saved := WorkflowService.SaveWorkflow(m, WorkflowData(w.value.id, w.value.name, w.value.description, Some(steps)));
    r := Ok(Rows(steps, rt));
  }

  /**
    move_step as evidently intended: the same move, but the selection follows
    the moved step, so repeated moves keep moving the same step.
  */
  method MoveStepTracked(m: WorkflowManager, workflowId: Option<string>, selected: Option<nat>, direction: string, rt: Runtime)
    returns (r: Result<seq<StepRow>, UiError>, selection: Option<nat>)
    requires m.Valid()
    modifies m
    ensures m.Valid() && m.order == old(m.order)
    ensures !Loaded(workflowId) ==> r == Err(NoWorkflow)
    ensures Loaded(workflowId) && selected.None? ==> r == Err(NoSelection)
    ensures Loaded(workflowId) && selected.Some? && workflowId.value !in old(m.workflows) ==> r == Err(Unhandled)
    ensures (Loaded(workflowId) && selected.Some? && workflowId.value in old(m.workflows)
      && Move(old(m.workflows)[workflowId.value].steps, selected.value, direction) == Err(CannotMove)) ==>
      r == Err(CannotMoveStep)
    ensures (Loaded(workflowId) && selected.Some? && workflowId.value in old(m.workflows)
      && Move(old(m.workflows)[workflowId.value].steps, selected.value, direction) == Err(StaleIndex)) ==>
      r == Err(Unhandled)
    ensures r.Err? ==> m.workflows == old(m.workflows) && selection == selected
    ensures r.Ok? <==>
      && Loaded(workflowId) && selected.Some? && workflowId.value in old(m.workflows)
      && Move(old(m.workflows)[workflowId.value].steps, selected.value, direction).Ok?
    ensures r.Ok? ==>
      && Loaded(workflowId) && selected.Some? && workflowId.value in old(m.workflows)
      && var w := old(m.workflows)[workflowId.value];
      && Move(w.steps, selected.value, direction).Ok?
      && var moved := Move(w.steps, selected.value, direction).value;
      && m.workflows == old(m.workflows)[workflowId.value := w.(steps := moved)]
      && r.value == Rows(moved, rt)
      && selection.Some? && selection.value < |moved| && moved[selection.value] == w.steps[selected.value]
  {
    r := MoveStep(m, workflowId, selected, direction, rt);
    selection := selected;
    if r.Ok? {
      FollowMoveTracksStep(old(m.workflows)[workflowId.value].steps, selected.value, direction);
      selection := Some(FollowMove(selected.value, direction));
    }
  }
}
