/**
  The dynamic-parameter test page. Its dropdown offers every registered action
  as "category - action"; the chosen entry is decoded back to the action name
  by taking the last " - "-separated segment; the action's parameters are
  drawn as a form, and the add button collects the form's values into a
  parameter dict, refusing a count mismatch and a blank required value.
*/
module ActionTestPanel {
  import opened Wrappers
  import opened PyValues
  import LegacyDesigner

  /** The text between category and action in a dropdown entry. */
  const Separator: string := " - "

  /** One category of the action registry with its actions, in registry order. */
  datatype Category = Category(name: string, actions: seq<string>)

  /** Why the page produced a message instead of a result. `Unhandled` is an uncaught exception. */
  datatype PanelError =
    | NoActionSelected
    | CountMismatch(expected: nat, actual: nat)
    | MissingRequired(name: string)
    | Unhandled

  /** The separator occurs in s at position i. */
  predicate SepAt(s: string, i: nat)
  {
    i + |Separator| <= |s| && s[i..i + |Separator|] == Separator
  }

  /** The separator occurs nowhere in s. */
  ghost predicate NoSep(s: string)
  {
    forall i: nat :: !SepAt(s, i)
  }

  /** Dropping the first character moves every occurrence one place to the left. */
  lemma SepAtShift(s: string, i: nat)
    requires s != []
    ensures SepAt(s, i + 1) <==> SepAt(s[1..], i)
  {
    if i + 1 + |Separator| <= |s| {
      assert s[1..][i..i + |Separator|] == s[i + 1..i + 1 + |Separator|];
    }
  }

  /** The leftmost occurrence of the separator, where str.split finds it. */
  function FirstSep(s: string): (r: Option<nat>)
    ensures r.Some? ==> SepAt(s, r.value) && forall j: nat :: j < r.value ==> !SepAt(s, j)
    ensures r.None? ==> NoSep(s)
    decreases |s|
  {
    if |s| < |Separator| then None
    else if s[..|Separator|] == Separator then Some(0)
    else match FirstSep(s[1..])
      case None =>
        assert NoSep(s) by {
          forall i: nat ensures !SepAt(s, i) {
            if i > 0 {
              SepAtShift(s, i - 1);
            }
          }
        }
        None
      case Some(k) =>
        SepAtShift(s, k);
        assert forall j: nat :: j < k + 1 ==> !SepAt(s, j) by {
          forall j: nat | j < k + 1 ensures !SepAt(s, j) {
            if j > 0 {
              SepAtShift(s, j - 1);
            }
          }
        }
        Some(k + 1)
  }

  /**
    `s.split(" - ")[-1]`: the text after the last separator that a
    left-to-right, non-overlapping scan finds, or s itself when there is none.
  */
  function LastSegment(s: string): (r: string)
    ensures |r| <= |s| && r == s[|s| - |r|..]
    ensures NoSep(r)
    ensures NoSep(s) ==> r == s
    decreases |s|
  {
    match FirstSep(s)
      case None => s
      case Some(i) =>
        var rest := s[i + |Separator|..];
        var r := LastSegment(rest);
        assert r == s[|s| - |r|..] by {
          assert rest[|rest| - |r|..] == s[|s| - |r|..];
        }
        r
  }

  /** The action name behind a dropdown entry. */
  function ActionName(choice: string): string
  {
    LastSegment(choice)
  }

  /** The dropdown entries of one category: "category - action" for each action, in order. */
  function Labels(category: string, actions: seq<string>): (r: seq<string>)
    ensures |r| == |actions|
    ensures forall i :: 0 <= i < |actions| ==> r[i] == category + Separator + actions[i]
  {
    seq(|actions|, i requires 0 <= i < |actions| => category + Separator + actions[i])
  }

  /** Every registered action, category after category. */
  function AllActions(catalog: seq<Category>): (r: seq<string>)
  {
    if catalog == [] then [] else catalog[0].actions + AllActions(catalog[1..])
  }

  /** The category of each registered action, parallel to AllActions. */
  function ActionCategories(catalog: seq<Category>): (r: seq<string>)
    ensures |r| == |AllActions(catalog)|
  {
    if catalog == [] then []
    else seq(|catalog[0].actions|, _ => catalog[0].name) + ActionCategories(catalog[1..])
  }

  /**
    The dropdown's choices: for every registered action, in registry order,
    "category - action".
  */
  function Choices(catalog: seq<Category>): (r: seq<string>)
    ensures |r| == |AllActions(catalog)|
    ensures forall k :: 0 <= k < |r| ==> r[k] == ActionCategories(catalog)[k] + Separator + AllActions(catalog)[k]
  {
    if catalog == [] then [] else Labels(catalog[0].name, catalog[0].actions) + Choices(catalog[1..])
  }

  /** The action names decoded from a list of dropdown entries. */
  function DecodeAll(choices: seq<string>): (r: seq<string>)
    ensures |r| == |choices|
    ensures forall i :: 0 <= i < |choices| ==> r[i] == ActionName(choices[i])
  {
    seq(|choices|, i requires 0 <= i < |choices| => ActionName(choices[i]))
  }

  /** s ends in " -", the start of a separator that the label's own separator would complete. */
  predicate EndsInDash(s: string)
  {
    |s| >= 2 && s[|s| - 2..] == " -"
  }

  /**
    A separator cannot straddle the end of the category: starting one or two
    characters before it, it would need the category to end in " -" or " ",
    followed by "-".
  */
  lemma NoSepAcrossBoundary(category: string, action: string, j: nat)
    requires !EndsInDash(category) && j < |category| < j + |Separator|
    ensures !SepAt(category + Separator + action, j)
  {
    var s := category + Separator + action;
    var w := s[j..j + |Separator|];
    if j == |category| - 1 {
      assert w[1] == s[|category|] == ' ';
    } else {
      var n := |category|;
      assert w[0] == category[n - 2] && w[1] == category[n - 1];
      assert category[n - 2..] == [category[n - 2], category[n - 1]];
    }
  }

  /**
    Decoding gives back the action when the action contains no separator and
    the category does not end in " -". The category may itself contain " - ":
    the scan steps over its separators and the last segment is still the
    action.
  */
  lemma {:induction false} ActionNameOfLabel(category: string, action: string)
    requires !EndsInDash(category) && NoSep(action)
    ensures ActionName(category + Separator + action) == action
    decreases |category|
  {
    var s := category + Separator + action;
    assert SepAt(s, |category|) by {
      assert s[|category|..|category| + |Separator|] == Separator;
    }
    forall j: nat | j < |category| < j + |Separator| ensures !SepAt(s, j) {
      NoSepAcrossBoundary(category, action, j);
    }
    var i := FirstSep(s).value;
    if i == |category| {
      assert s[i + |Separator|..] == action;
    } else {
      var rest := category[i + |Separator|..];
      assert s[i + |Separator|..] == rest + Separator + action;
      assert !EndsInDash(rest) by {
        if |rest| >= 2 {
          assert rest[|rest| - 2..] == category[|category| - 2..];
        }
      }
      ActionNameOfLabel(rest, action);
    }
  }

  /** No category name or action name can confuse the decoding. */
  ghost predicate Unambiguous(catalog: seq<Category>)
  {
    forall i :: 0 <= i < |catalog| ==>
      && !EndsInDash(catalog[i].name)
      && forall j :: 0 <= j < |catalog[i].actions| ==> NoSep(catalog[i].actions[j])
  }

  /** Decoding distributes over concatenation. */
  lemma DecodeAllAppend(a: seq<string>, b: seq<string>)
    ensures DecodeAll(a + b) == DecodeAll(a) + DecodeAll(b)
  {
    var l, r := DecodeAll(a + b), DecodeAll(a) + DecodeAll(b);
    assert |l| == |r|;
    forall i | 0 <= i < |l| ensures l[i] == r[i] {
      if i < |a| {
        assert (a + b)[i] == a[i];
      } else {
        assert (a + b)[i] == b[i - |a|];
      }
    }
  }

  /** The labels of one unambiguous category decode to its actions. */
  lemma LabelsDecode(c: Category)
    requires !EndsInDash(c.name)
    requires forall j :: 0 <= j < |c.actions| ==> NoSep(c.actions[j])
    ensures DecodeAll(Labels(c.name, c.actions)) == c.actions
  {
    var labels := Labels(c.name, c.actions);
    forall i | 0 <= i < |labels| ensures ActionName(labels[i]) == c.actions[i] {
      ActionNameOfLabel(c.name, c.actions[i]);
    }
  }

  /** Decoding the dropdown's choices, in order, lists exactly the registered actions. */
  lemma {:induction false} ChoicesDecodeToActions(catalog: seq<Category>)
    requires Unambiguous(catalog)
    ensures DecodeAll(Choices(catalog)) == AllActions(catalog)
    decreases |catalog|
  {
    if catalog != [] {
      var c, rest := catalog[0], catalog[1..];
      assert Unambiguous(rest) by {
        forall i | 0 <= i < |rest| ensures rest[i] == catalog[i + 1] {
        }
      }
      ChoicesDecodeToActions(rest);
      LabelsDecode(c);
      DecodeAllAppend(Labels(c.name, c.actions), Choices(rest));
    }
  }

  /** The form drawn for a dropdown entry: the action's name, its parameters and one widget per parameter. */
  datatype Form = Form(actionName: string, params: Dict, widgets: seq<LegacyDesigner.Widget>)

  /**
    render_params: nothing is drawn until an entry is chosen; an action the
    registry has no parameters for raises; otherwise each parameter gets the
    widget its default calls for.
  */
  function RenderParams(actionStr: Option<string>, defaultsOf: string -> Option<Dict>, rt: Runtime): (r: Result<Form, PanelError>)
    ensures actionStr.None? || actionStr.value == "" ==> r == Err(NoActionSelected)
    ensures r.Ok? ==>
      && actionStr.Some? && r.value.actionName == ActionName(actionStr.value)
      && defaultsOf(r.value.actionName) == Some(r.value.params)
      && |r.value.widgets| == |r.value.params|
      && forall i :: 0 <= i < |r.value.params| ==>
           r.value.widgets[i] == LegacyDesigner.WidgetFor(r.value.params[i].key, r.value.params[i].value, rt)
    ensures r.Err? && actionStr.Some? && actionStr.value != "" ==>
      r == Err(Unhandled) && defaultsOf(ActionName(actionStr.value)).None?
  {
    if actionStr.None? || actionStr.value == "" then Err(NoActionSelected)
    else
      var name := ActionName(actionStr.value);
      match defaultsOf(name)
        case None => Err(Unhandled)
        case Some(params) =>
          Ok(Form(name, params, seq(|params|, i requires 0 <= i < |params| =>
            LegacyDesigner.WidgetFor(params[i].key, params[i].value, rt))))
  }

  /** Choosing the entry of a registered action draws that action's form. */
  lemma ChosenEntryDrawsItsAction(category: string, action: string, defaultsOf: string -> Option<Dict>, rt: Runtime)
    requires !EndsInDash(category) && NoSep(action)
    requires defaultsOf(action).Some?
    ensures RenderParams(Some(category + Separator + action), defaultsOf, rt).Ok?
    ensures RenderParams(Some(category + Separator + action), defaultsOf, rt).value.actionName == action
  {
    ActionNameOfLabel(category, action);
  }

  /** A required parameter (default None) left blank. */
  predicate MissingAt(params: Dict, values: seq<Value>, j: int)
    requires 0 <= j < |params| && |values| == |params|
  {
    params[j].value == Null && IsBlankInput(values[j])
  }

  /**
    add_params: with no entry chosen there is only a message. The number of
    values must equal the number of parameters; then each value is stored
    verbatim under its parameter's name, in parameter order, and the first
    required parameter left blank is reported.
  */
  method CollectParams(actionStr: Option<string>, params: Dict, values: seq<Value>)
    returns (r: Result<Dict, PanelError>)
    ensures actionStr.None? || actionStr.value == "" ==> r == Err(NoActionSelected)
    ensures (actionStr.Some? && actionStr.value != "" && |values| != |params|) ==>
      r == Err(CountMismatch(|params|, |values|))
    ensures r.Ok? <==>
      && actionStr.Some? && actionStr.value != "" && |values| == |params|
      && forall j :: 0 <= j < |params| ==> !MissingAt(params, values, j)
    ensures r.Ok? ==>
      && |r.value| == |params| && Keys(r.value) == Keys(params)
      && forall j :: 0 <= j < |params| ==> r.value[j].value == values[j]
    ensures r.Err? && actionStr.Some? && actionStr.value != "" && |values| == |params| ==>
      && r.error.MissingRequired?
      && exists j :: 0 <= j < |params| && MissingAt(params, values, j) && r.error.name == params[j].key
           && forall k :: 0 <= k < j ==> !MissingAt(params, values, k)
  {
    if actionStr.None? || actionStr.value == "" {
      return Err(NoActionSelected);
    }
    if |values| != |params| {
      return Err(CountMismatch(|params|, |values|));
    }
    var collected: Dict := [];
    var i := 0;
    while i < |params|
      invariant 0 <= i <= |params|
      invariant |collected| == i
      invariant forall k :: 0 <= k < i ==> collected[k] == Binding(params[k].key, values[k])
      invariant forall k :: 0 <= k < i ==> !MissingAt(params, values, k)
    {
      var value := values[i];
      if params[i].value == Null && (value == Null || value == Str("")) {
        assert MissingAt(params, values, i);
        return Err(MissingRequired(params[i].key));
      }
      collected := collected + [Binding(params[i].key, value)];
      i := i + 1;
    }
    r := Ok(collected);
  }
}
