/**
  The component explorer: the table of a category's actions with their
  parameters, narrowed by a case-insensitive search.
*/
module ActionExplorer {
  import opened Wrappers
  import opened PyValues

  /** The single row shown when there is nothing to list. */
  const PlaceholderRow: seq<string> := ["无操作", "无参数"]

  /** The first cell of the row shown when the registry raises. */
  const ErrorLabel: string := "错误"

  /** sub occurs in s starting at position i. */
  predicate OccursAt(s: string, sub: string, i: nat)
  {
    i + |sub| <= |s| && s[i..i + |sub|] == sub
  }

  /** `sub in s` for strings. */
  predicate Contains(s: string, sub: string)
  {
    exists i :: 0 <= i <= |s| - |sub| && OccursAt(s, sub, i)
  }

  /** The filter's test: the lower-cased search occurs in the lower-cased name. */
  predicate Matches(action: string, search: string, rt: Runtime)
  {
    Contains(rt.lower(action), rt.lower(search))
  }

  /** `[a for a in actions if search.lower() in a.lower()]`. */
  function Filter(actions: seq<string>, search: string, rt: Runtime): (r: seq<string>)
    ensures |r| <= |actions|
    ensures forall i :: 0 <= i < |r| ==> Matches(r[i], search, rt)
  {
    if actions == [] then []
    else if Matches(actions[0], search, rt) then [actions[0]] + Filter(actions[1..], search, rt)
    else Filter(actions[1..], search, rt)
  }

  /** The filter keeps exactly the matching actions. */
  lemma {:induction false} FilterMembership(actions: seq<string>, search: string, rt: Runtime, a: string)
    ensures a in Filter(actions, search, rt) <==> a in actions && Matches(a, search, rt)
    decreases |actions|
  {
    if actions != [] {
      FilterMembership(actions[1..], search, rt, a);
      assert actions == [actions[0]] + actions[1..];
    }
  }

  /** The filter keeps the registry's order: filtering a concatenation concatenates the filtered parts. */
  lemma {:induction false} FilterAppend(xs: seq<string>, ys: seq<string>, search: string, rt: Runtime)
    ensures Filter(xs + ys, search, rt) == Filter(xs, search, rt) + Filter(ys, search, rt)
    decreases |xs|
  {
    if xs != [] {
      assert (xs + ys)[1..] == xs[1..] + ys;
      FilterAppend(xs[1..], ys, search, rt);
    } else {
      assert xs + ys == ys;
    }
  }

  /** A search every action matches keeps the list as it is. */
  lemma {:induction false} FilterKeepsAllMatching(actions: seq<string>, search: string, rt: Runtime)
    requires forall i :: 0 <= i < |actions| ==> Matches(actions[i], search, rt)
    ensures Filter(actions, search, rt) == actions
    decreases |actions|
  {
    if actions != [] {
      assert Matches(actions[0], search, rt);
      FilterKeepsAllMatching(actions[1..], search, rt);
    }
  }

  /**
    One row per action, `[action, json.dumps(params or {})]`, in order. The
    first action whose parameter lookup raises ends the listing with that
    error's message.
  */
  function ActionRows(actions: seq<string>, paramsOf: string -> Result<Option<Dict>, string>, rt: Runtime)
    : (r: Result<seq<seq<string>>, string>)
    ensures r.Ok? <==> forall i :: 0 <= i < |actions| ==> paramsOf(actions[i]).Ok?
    ensures r.Ok? ==> |r.value| == |actions|
    ensures r.Ok? ==> forall i :: 0 <= i < |actions| ==>
      r.value[i] == [actions[i], rt.jsonDumps(Dict(ParamsOrEmpty(paramsOf(actions[i]).value)))]
    ensures r.Err? ==> exists i :: FailsFirstAt(actions, paramsOf, i, r.error)
  {
    if actions == [] then Ok([])
    else match paramsOf(actions[0])
      case Err(e) =>
        assert FailsFirstAt(actions, paramsOf, 0, e);
        Err(e)
      case Ok(params) =>
        var row := [actions[0], rt.jsonDumps(Dict(ParamsOrEmpty(params)))];
        match ActionRows(actions[1..], paramsOf, rt)
          case Err(e) =>
            assert exists i :: FailsFirstAt(actions, paramsOf, i, e) by {
              var i :| FailsFirstAt(actions[1..], paramsOf, i, e);
              assert forall k :: 1 <= k < i + 1 ==> actions[k] == actions[1..][k - 1];
              assert FailsFirstAt(actions, paramsOf, i + 1, e);
            }
            Err(e)
          case Ok(rest) =>
            assert forall i :: 1 <= i < |actions| ==> actions[i] == actions[1..][i - 1];
            Ok([row] + rest)
  }

  /** The lookup for the i-th action raises e, and none before it raises. */
  predicate FailsFirstAt(actions: seq<string>, paramsOf: string -> Result<Option<Dict>, string>, i: int, e: string)
  {
    && 0 <= i < |actions| && paramsOf(actions[i]) == Err(e)
    && forall k :: 0 <= k < i ==> paramsOf(actions[k]).Ok?
  }

  /** `params or {}`: a missing or empty parameter dict is shown as {}. */
  function ParamsOrEmpty(params: Option<Dict>): (d: Dict)
    ensures params.Some? ==> d == params.value
    ensures params.None? ==> d == []
  {
    if params.Some? then params.value else []
  }

  /**
    update_actions: no category gives the placeholder row; otherwise the
    category's actions, narrowed by the search when one is typed, one row
    each; no rows gives the placeholder row, and an exception from the
    registry gives a single error row with its message. `actionsIn` and
    `paramsOf` are the registry's lookups; an Err is an exception.
  */
  function UpdateActions(category: Option<string>, search: Option<string>,
                         actionsIn: string -> Result<seq<string>, string>,
                         paramsOf: string -> Result<Option<Dict>, string>, rt: Runtime)
    : (table: seq<seq<string>>)
    ensures category.None? || category.value == "" ==> table == [PlaceholderRow]
    ensures |table| >= 1
    ensures (category.Some? && category.value != "" && actionsIn(category.value).Err?) ==>
      table == [[ErrorLabel, actionsIn(category.value).error]]
    ensures (category.Some? && category.value != "" && actionsIn(category.value).Ok?) ==>
      && var kept := Kept(actionsIn(category.value).value, search, rt);
      && var rows := ActionRows(kept, paramsOf, rt);
      && (rows.Err? ==> table == [[ErrorLabel, rows.error]])
      && (rows.Ok? && kept == [] ==> table == [PlaceholderRow])
      && (rows.Ok? && kept != [] ==> table == rows.value)
  {
    if category.None? || category.value == "" then [PlaceholderRow]
    else match actionsIn(category.value)
      case Err(e) => [[ErrorLabel, e]]
      case Ok(actions) =>
        match ActionRows(Kept(actions, search, rt), paramsOf, rt)
          case Err(e) => [[ErrorLabel, e]]
          case Ok(rows) => if rows == [] then [PlaceholderRow] else rows
  }

  /** The actions kept for a search: all of them when the search is empty. */
  function Kept(actions: seq<string>, search: Option<string>, rt: Runtime): (r: seq<string>)
    ensures search.None? || search.value == "" ==> r == actions
    ensures search.Some? && search.value != "" ==> r == Filter(actions, search.value, rt)
  {
    if search.Some? && search.value != "" then Filter(actions, search.value, rt) else actions
  }

  /**
    With a search typed and no registry errors, the table lists exactly the
    category's actions that match it, in the registry's order.
  */
  lemma SearchListsExactlyMatches(category: string, search: string,
                                  actionsIn: string -> Result<seq<string>, string>,
                                  paramsOf: string -> Result<Option<Dict>, string>, rt: Runtime, a: string)
    requires category != "" && search != "" && actionsIn(category).Ok?
    requires forall x :: paramsOf(x).Ok?
    requires Filter(actionsIn(category).value, search, rt) != []
    ensures var table := UpdateActions(Some(category), Some(search), actionsIn, paramsOf, rt);
      (exists i :: 0 <= i < |table| && table[i][0] == a) <==> a in actionsIn(category).value && Matches(a, search, rt)
  {
    var kept := Filter(actionsIn(category).value, search, rt);
    FilterMembership(actionsIn(category).value, search, rt, a);
    var table := UpdateActions(Some(category), Some(search), actionsIn, paramsOf, rt);
    assert table == ActionRows(kept, paramsOf, rt).value;
    if a in kept {
      var i :| 0 <= i < |kept| && kept[i] == a;
      assert table[i][0] == a;
    }
  }
}
