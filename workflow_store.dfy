/**
  Workflows, their steps, and the workflow manager that keeps them: the store
  behind the workflow service. The manager itself is not part of this model's
  source; it is described here only by the contract the service relies on:
  lookup by id, an enumeration in a stable order, and a save that inserts or
  overwrites by id.
*/
module WorkflowStore {
  import opened Wrappers
  import opened PyValues

  /** One step of a workflow: an action name with its parameters. */
  datatype Step = Step(actionName: string, params: Dict)

  /** A workflow as its dict form (`to_dict()`) shows it; timestamps are left out. */
  datatype Workflow = Workflow(id: string, name: string, description: string, steps: seq<Step>)

  class WorkflowManager {
    /** The stored workflows, by id. */
    var workflows: map<string, Workflow>
    /** The ids in the order get_all_workflows enumerates them. */
    var order: seq<string>

    /** Each workflow is stored under its own id; `order` lists every id once. */
    ghost predicate Valid()
      reads this
    {
      && (forall id :: id in workflows ==> workflows[id].id == id)
      && (forall i :: 0 <= i < |order| ==> order[i] in workflows)
      && (forall id :: id in workflows ==> id in order)
      && (forall i, j :: 0 <= i < j < |order| ==> order[i] != order[j])
    }

    constructor ()
      ensures Valid()
      ensures workflows == map[] && order == []
    {
      workflows := map[];
      order := [];
    }

    /** save_workflow: insert w, or overwrite the workflow with w's id. */
    method Save(w: Workflow)
      requires Valid()
      modifies this
      ensures Valid()
      ensures workflows == old(workflows)[w.id := w]
      ensures order == if w.id in old(workflows) then old(order) else old(order) + [w.id]
    {
      if w.id !in workflows {
        order := order + [w.id];
      }
      workflows := workflows[w.id := w];
    }

    /**
      create_workflow: a new workflow with an empty step list under a newId id.
      `newId` is the manager's answer: an id it has not issued, or None when it
      fails to create the workflow.
    */
    method Create(name: string, description: string, newId: Option<string>) returns (r: Option<Workflow>)
      requires Valid()
      requires newId.Some? ==> newId.value !in workflows
      modifies this
      ensures Valid()
      ensures newId.None? ==> r.None? && workflows == old(workflows) && order == old(order)
      ensures newId.Some? ==> r == Some(Workflow(newId.value, name, description, []))
      ensures newId.Some? ==> workflows == old(workflows)[newId.value := r.value] && order == old(order) + [newId.value]
    {
      if newId.None? {
        return None;
      }
      var w := Workflow(newId.value, name, description, []);
      Save(w);
      r := Some(w);
    }
  }
}
