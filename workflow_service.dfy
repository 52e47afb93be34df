/**
  The workflow service: create, look up, append a step to, overwrite and import
  workflows held by the workflow manager. Each operation reports a missing
  workflow as an error instead of raising.
*/
module WorkflowService {
  import opened Wrappers
  import opened PyValues
  import opened WorkflowStore

  /** WorkflowError, by cause. */
  datatype WorkflowError = CreateFailed | NotFound

  /** The dict a caller hands to save_workflow; a missing "steps" key is None. */
  datatype WorkflowData = WorkflowData(id: string, name: string, description: string, steps: Option<seq<Step>>)

  /** A workflow document to import: every key may be missing. */
  datatype ImportDoc = ImportDoc(id: Option<string>, name: Option<string>, description: Option<string>, steps: Option<seq<Step>>)

  /** create_workflow: raises when the manager returns no workflow. */
  method CreateWorkflow(m: WorkflowManager, name: string, description: string, newId: Option<string>)
    returns (r: Result<Workflow, WorkflowError>)
    requires m.Valid()
    requires newId.Some? ==> newId.value !in m.workflows
    modifies m
    ensures m.Valid()
    ensures r.Err? <==> newId.None?
    ensures r.Err? ==> r.error == CreateFailed && m.workflows == old(m.workflows) && m.order == old(m.order)
    ensures r.Ok? ==> r.value == Workflow(newId.value, name, description, [])
    ensures r.Ok? ==> m.workflows == old(m.workflows)[r.value.id := r.value]
    ensures r.Ok? ==> m.order == old(m.order) + [r.value.id]
  {
    var w := m.Create(name, description, newId);
    if w.None? {
      return Err(CreateFailed);
    }
    r := Ok(w.value);
  }

  /** get_workflow: None for an unknown id, otherwise the workflow stored under it. */
  function GetWorkflow(m: WorkflowManager, id: string): (r: Option<Workflow>)
    reads m
    requires m.Valid()
    ensures r.None? <==> id !in m.workflows
    ensures r.Some? ==> r.value == m.workflows[id] && r.value.id == id
  {
    if id in m.workflows then Some(m.workflows[id]) else None
  }

  /** get_all_workflows: one workflow per stored id, in the manager's order. */
  function GetAllWorkflows(m: WorkflowManager): (ws: seq<Workflow>)
    reads m
    requires m.Valid()
    ensures |ws| == |m.order| == |m.workflows.Keys|
    ensures forall i :: 0 <= i < |ws| ==> ws[i] == m.workflows[m.order[i]] && ws[i].id == m.order[i]
    ensures forall i, j :: 0 <= i < j < |ws| ==> ws[i].id != ws[j].id
  {
    OrderCoversStore(m.order, m.workflows.Keys);
    var order, stored := m.order, m.workflows;
    seq(|order|, i requires 0 <= i < |order| && order[i] in stored => stored[order[i]])
  }

  /** A duplicate-free listing of a set has as many entries as the set. */
  lemma {:induction false} OrderCoversStore(order: seq<string>, keys: set<string>)
    requires forall i :: 0 <= i < |order| ==> order[i] in keys
    requires forall k :: k in keys ==> k in order
    requires forall i, j :: 0 <= i < j < |order| ==> order[i] != order[j]
    ensures |order| == |keys|
    decreases |order|
  {
    if order != [] {
      var last := order[|order| - 1];
      var rest := order[..|order| - 1];
      forall k | k in keys - {last} ensures k in rest {
        var i :| 0 <= i < |order| && order[i] == k;
        assert i < |order| - 1;
        assert rest[i] == k;
      }
      forall i | 0 <= i < |rest| ensures rest[i] in keys - {last} {
        assert rest[i] == order[i];
      }
      OrderCoversStore(rest, keys - {last});
    }
  }

  /** The workflow after `workflow.add_step(WorkflowStep(...))`. */
  function AppendStep(w: Workflow, step: Step): (w': Workflow)
    ensures w'.id == w.id && w'.name == w.name && w'.description == w.description
    ensures |w'.steps| == |w.steps| + 1
    ensures w'.steps[..|w.steps|] == w.steps && w'.steps[|w.steps|] == step
  {
    w.(steps := w.steps + [step])
  }

  /**
    add_step: an unknown id raises and leaves the store as it was; otherwise
    exactly one step is appended and the workflow is saved.
  */
  method AddStep(m: WorkflowManager, id: string, actionName: string, params: Dict)
    returns (r: Result<Workflow, WorkflowError>)
    requires m.Valid()
    modifies m
    ensures m.Valid() && m.order == old(m.order)
    ensures id !in old(m.workflows) ==> r == Err(NotFound) && m.workflows == old(m.workflows)
    ensures id in old(m.workflows) ==>
      && r == Ok(AppendStep(old(m.workflows)[id], Step(actionName, params)))
      && m.workflows == old(m.workflows)[id := r.value]
  {
    var w := GetWorkflow(m, id);
    if w.None? {
      return Err(NotFound);
    }
    var w' := AppendStep(w.value, Step(actionName, params));
    m.Save(w');
    r := Ok(w');
  }

  /** The workflow after save_workflow copies name, description and steps from data. */
  function Overwrite(w: Workflow, data: WorkflowData): (w': Workflow)
    ensures w'.id == w.id
    ensures w'.name == data.name && w'.description == data.description
    ensures data.steps.Some? ==> w'.steps == data.steps.value
    ensures data.steps.None? ==> w'.steps == []
  {
    Workflow(w.id, data.name, data.description, if data.steps.Some? then data.steps.value else [])
  }

  /** save_workflow: an unknown id raises; otherwise the stored workflow is overwritten. */
  method SaveWorkflow(m: WorkflowManager, data: WorkflowData) returns (r: Outcome<WorkflowError>)
    requires m.Valid()
    modifies m
    ensures m.Valid() && m.order == old(m.order)
    ensures data.id !in old(m.workflows) ==> r == Fail(NotFound) && m.workflows == old(m.workflows)
    ensures data.id in old(m.workflows) ==>
      r == Pass && m.workflows == old(m.workflows)[data.id := Overwrite(old(m.workflows)[data.id], data)]
  {
    var w := GetWorkflow(m, data.id);
    if w.None? {
      return Fail(NotFound);
    }
    m.Save(Overwrite(w.value, data));
    r := Pass;
  }

  /** The workflow import_workflow builds: missing fields default, the id falls back to generatedId. */
  function Imported(doc: ImportDoc, generatedId: string): (w: Workflow)
    ensures w.id == (if doc.id.Some? then doc.id.value else generatedId)
    ensures w.name == (if doc.name.Some? then doc.name.value else "")
    ensures w.description == (if doc.description.Some? then doc.description.value else "")
    ensures w.steps == (if doc.steps.Some? then doc.steps.value else [])
  {
    Workflow(
      if doc.id.Some? then doc.id.value else generatedId,
      if doc.name.Some? then doc.name.value else "",
      if doc.description.Some? then doc.description.value else "",
      if doc.steps.Some? then doc.steps.value else [])
  }

  /** import_workflow: builds the workflow and saves it, replacing any workflow with the same id. */
  method ImportWorkflow(m: WorkflowManager, doc: ImportDoc, generatedId: string) returns (w: Workflow)
    requires m.Valid()
    modifies m
    ensures m.Valid()
    ensures w == Imported(doc, generatedId)
    ensures m.workflows == old(m.workflows)[w.id := w]
    ensures m.order == if w.id in old(m.workflows) then old(m.order) else old(m.order) + [w.id]
  {
    w := Imported(doc, generatedId);
    m.Save(w);
  }

  /** The document export writes: the workflow's dict with every key present. */
  function ToDocument(w: Workflow): (doc: ImportDoc)
    ensures doc.id == Some(w.id) && doc.name == Some(w.name)
    ensures doc.description == Some(w.description) && doc.steps == Some(w.steps)
  {
    ImportDoc(Some(w.id), Some(w.name), Some(w.description), Some(w.steps))
  }

  /** Importing an exported workflow gives back the same workflow, whatever id the generator offers. */
  lemma ExportThenImport(w: Workflow, generatedId: string)
    ensures Imported(ToDocument(w), generatedId) == w
  {
  }

  /** A document without an id is imported under the generated id, with its fields intact. */
  lemma ImportWithoutId(doc: ImportDoc, generatedId: string)
    requires doc.id.None? && doc.name.Some? && doc.description.Some? && doc.steps.Some?
    ensures Imported(doc, generatedId) == Workflow(generatedId, doc.name.value, doc.description.value, doc.steps.value)
  {
  }
}
