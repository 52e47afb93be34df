/**
  The step-list editing that both workflow designers perform on a workflow's
  steps: choosing a row of the steps table, deleting the chosen step, and
  swapping it with a neighbour.
*/
module StepEditing {
  import opened Wrappers
  import opened PyValues
  import opened WorkflowStore

  /** One row of the steps table: the action name and the parameters as JSON text. */
  datatype StepRow = StepRow(action: string, params: string)

  /** Why a row number was not accepted. */
  datatype SelectError = NoSteps | NotAnInteger | RowOutOfRange(rowCount: nat)

  /** Why a move was refused. `StaleIndex` is the IndexError an "up" move raises past the end. */
  datatype MoveError = CannotMove | StaleIndex

  /** The steps table shown for a step list: one row per step, in order. */
  function Rows(steps: seq<Step>, rt: Runtime): (rows: seq<StepRow>)
    ensures |rows| == |steps|
    ensures forall i :: 0 <= i < |steps| ==>
      rows[i].action == steps[i].actionName && rows[i].params == rt.jsonDumps(Dict(steps[i].params))
  {
    seq(|steps|, i requires 0 <= i < |steps| => StepRow(steps[i].actionName, rt.jsonDumps(Dict(steps[i].params))))
  }

  /**
    confirm_select_step: the 1-based row number typed by the user becomes a
    0-based index into the table, when the table is non-empty and the number,
    converted with int(), names one of its rows.
  */
  function ConfirmSelectStep(row: Value, table: seq<StepRow>, rt: Runtime): (r: Result<nat, SelectError>)
    ensures |table| == 0 ==> r == Err(NoSteps)
    ensures r.Ok? <==> |table| > 0 && rt.toInt(row).Some? && 1 <= rt.toInt(row).value <= |table|
    ensures r.Ok? ==> r.value + 1 == rt.toInt(row).value && r.value < |table|
    ensures |table| > 0 && rt.toInt(row).None? ==> r == Err(NotAnInteger)
  {
    if |table| == 0 then Err(NoSteps)
    else match rt.toInt(row)
      case None => Err(NotAnInteger)
      case Some(n) =>
        var index := n - 1;
        if index < 0 || index >= |table| then Err(RowOutOfRange(|table|)) else Ok(index)
  }

  /** `steps.pop(i)`: the list without its i-th element. */
  function RemoveAt<T>(s: seq<T>, i: nat): (r: seq<T>)
    requires i < |s|
    ensures |r| == |s| - 1
    ensures forall k :: 0 <= k < i ==> r[k] == s[k]
    ensures forall k :: i <= k < |r| ==> r[k] == s[k + 1]
  {
    s[..i] + s[i + 1..]
  }

  /** Removing one element leaves the others: the multiset loses exactly s[i]. */
  lemma RemoveAtMultiset<T>(s: seq<T>, i: nat)
    requires i < |s|
    ensures multiset(RemoveAt(s, i)) + multiset{s[i]} == multiset(s)
  {
    assert s == s[..i] + [s[i]] + s[i + 1..];
  }

  /** delete_step's check and pop: an empty list or an index past the end is refused. */
  function DeleteAt(steps: seq<Step>, index: nat): (r: Option<seq<Step>>)
    ensures r.Some? <==> index < |steps|
    ensures r.Some? ==> r.value == RemoveAt(steps, index)
  {
    if steps == [] || index >= |steps| then None else Some(RemoveAt(steps, index))
  }

  /** `s[i], s[j] = s[j], s[i]`. */
  function Swap<T>(s: seq<T>, i: nat, j: nat): (r: seq<T>)
    requires i < |s| && j < |s|
    ensures |r| == |s| && r[i] == s[j] && r[j] == s[i]
    ensures forall k :: 0 <= k < |s| && k != i && k != j ==> r[k] == s[k]
  {
    s[i := s[j]][j := s[i]]
  }

  /** A swap only reorders: the multiset of elements is unchanged. */
  lemma SwapMultiset<T>(s: seq<T>, i: nat, j: nat)
    requires i < |s| && j < |s|
    ensures multiset(Swap(s, i, j)) == multiset(s)
  {
    var t := s[i := s[j]];
    assert multiset(t) == multiset(s) - multiset{s[i]} + multiset{s[j]};
  }

  /**
    move_step on a step list: "up" swaps with the previous step, "down" with the
    next one; any other direction, or a move past either end, is refused.
  */
  function Move(steps: seq<Step>, index: nat, direction: string): (r: Result<seq<Step>, MoveError>)
    ensures direction == "up" && 0 < index < |steps| ==> r == Ok(Swap(steps, index, index - 1))
    ensures direction == "down" && index + 1 < |steps| ==> r == Ok(Swap(steps, index, index + 1))
    ensures r.Ok? <==> (direction == "up" && 0 < index < |steps|) || (direction == "down" && index + 1 < |steps|)
    ensures direction == "up" && index == 0 ==> r == Err(CannotMove)
    ensures direction == "down" && index + 1 >= |steps| ==> r == Err(CannotMove)
    ensures direction == "up" && 0 < index && |steps| <= index ==> r == Err(StaleIndex)
    ensures direction != "up" && direction != "down" ==> r == Err(CannotMove)
  {
    if direction == "up" && index > 0 then
      if index < |steps| then Ok(Swap(steps, index, index - 1)) else Err(StaleIndex)
    else if direction == "down" && index < |steps| - 1 then
      Ok(Swap(steps, index, index + 1))
    else Err(CannotMove)
  }

  /** A move keeps every step and changes only the two swapped positions. */
  lemma MoveIsPermutation(steps: seq<Step>, index: nat, direction: string)
    requires Move(steps, index, direction).Ok?
    ensures multiset(Move(steps, index, direction).value) == multiset(steps)
  {
    if direction == "up" && index > 0 {
      SwapMultiset(steps, index, index - 1);
    } else {
      SwapMultiset(steps, index, index + 1);
    }
  }

  /** Moving a step up and then moving it (now one row higher) down restores the list. */
  lemma MoveUpThenDown(steps: seq<Step>, index: nat)
    requires Move(steps, index, "up").Ok?
    ensures Move(Move(steps, index, "up").value, index - 1, "down") == Ok(steps)
  {
    var s := Move(steps, index, "up").value;
    assert Swap(s, index - 1, index) == steps;
  }

  /**
    As written, move_step does not update the selected index, so a second "up"
    at the same index swaps the same two steps back.
  */
  lemma RepeatedMoveUpUndoes(steps: seq<Step>, index: nat)
    requires Move(steps, index, "up").Ok?
    ensures Move(Move(steps, index, "up").value, index, "up") == Ok(steps)
  {
    var s := Move(steps, index, "up").value;
    assert Swap(s, index, index - 1) == steps;
  }

  /** Where the moved step is after a successful move: the corrected selection. */
  function FollowMove(index: nat, direction: string): (k: int)
    ensures direction == "up" ==> k == index - 1
    ensures direction != "up" ==> k == index + 1
  {
    if direction == "up" then index - 1 else index + 1
  }

  /** The corrected selection still points at the step that was moved. */
  lemma FollowMoveTracksStep(steps: seq<Step>, index: nat, direction: string)
    requires Move(steps, index, direction).Ok?
    ensures 0 <= FollowMove(index, direction) < |steps|
    ensures Move(steps, index, direction).value[FollowMove(index, direction)] == steps[index]
  {
  }
}
