/**
  Schema-driven parameter resolution: how the designer turns the values of the
  parameter form into the parameter dict of a new step. Each parameter of an
  action has a default and a declared type; the form's values are read by a
  cursor, one per parameter, until they run out.
*/
module ParamResolution {
  import opened Wrappers
  import opened PyValues

  /**
    The declared type of a parameter. The five Optional types accept an empty
    input; every other annotation (int, str, bool, Optional[bool], ...) is `Other`.
  */
  datatype DeclType = OptionalInt | OptionalFloat | OptionalDict | OptionalList | OptionalStr | Other(annotation: string)

  /** One entry of an action's parameter schema: name -> (default, declared type). */
  datatype Param = Param(name: string, default: Value, declared: DeclType)

  type Schema = seq<Param>

  /** Why a parameter could not be resolved (the ValueError messages of add_step). */
  datatype ParamError =
    | MissingValue(name: string)
    | RequiredValue(name: string)
    | NotAnInteger(name: string)
    | NotAFloat(name: string)
    | InvalidJson(name: string)

  /** The conversion applied to a non-empty input, tried in this order. */
  datatype Coercion = ToInt | ToFloat | FromJson | Verbatim

  /** Whether the declared type turns an empty input into None. */
  predicate Nullable(t: DeclType)
  {
    !t.Other?
  }

  /**
    The conversion for p: int when the type is Optional[int] or the default is an
    int (a bool default counts, as bool is an int), then float, then JSON.
  */
  function CoercionOf(p: Param): (c: Coercion)
    ensures c == ToInt <==> p.declared == OptionalInt || IsIntInstance(p.default)
    ensures c == ToFloat <==>
      && !(p.declared == OptionalInt || IsIntInstance(p.default))
      && (p.declared == OptionalFloat || p.default.Float?)
    ensures c == FromJson <==>
      && !(p.declared == OptionalInt || IsIntInstance(p.default))
      && !(p.declared == OptionalFloat || p.default.Float?)
      && (p.declared == OptionalDict || p.declared == OptionalList || p.default.Dict? || p.default.List?)
    ensures c == Verbatim <==>
      (p.declared == OptionalStr || p.declared.Other?) && (p.default.Null? || p.default.Str?)
  {
    if p.declared == OptionalInt || IsIntInstance(p.default) then ToInt
    else if p.declared == OptionalFloat || p.default.Float? then ToFloat
    else if p.declared == OptionalDict || p.declared == OptionalList || p.default.Dict? || p.default.List? then FromJson
    else Verbatim
  }

  /** The value the cursor reads for parameter i: values[i] while values remain. */
  function Supplied(values: seq<Value>, i: nat): (v: Option<Value>)
    ensures v.Some? <==> i < |values|
    ensures v.Some? ==> v.value == values[i]
  {
    if i < |values| then Some(values[i]) else None
  }

  /**
    The decision for one parameter. A missing or empty input gives None for a
    nullable type and an error otherwise; any other input is converted by the
    parameter's coercion, and a failed conversion is an error.
  */
  function ResolveParam(p: Param, supplied: Option<Value>, rt: Runtime): (r: Result<Value, ParamError>)
    ensures supplied.None? ==> r == (if Nullable(p.declared) then Ok(Null) else Err(MissingValue(p.name)))
    ensures supplied.Some? && IsBlankInput(supplied.value) ==>
      r == (if Nullable(p.declared) then Ok(Null) else Err(RequiredValue(p.name)))
    ensures r == Ok(Null) ==> Nullable(p.declared) || (supplied.Some? && !IsBlankInput(supplied.value))
    ensures supplied.Some? && !IsBlankInput(supplied.value) && CoercionOf(p) == ToInt ==>
      (r.Ok? <==> rt.toInt(supplied.value).Some?) &&
      (r.Ok? ==> r.value == Int(rt.toInt(supplied.value).value)) &&
      (r.Err? ==> r.error == NotAnInteger(p.name))
    ensures supplied.Some? && !IsBlankInput(supplied.value) && CoercionOf(p) == ToFloat ==>
      (r.Ok? <==> rt.toFloat(supplied.value).Some?) &&
      (r.Ok? ==> r.value == Float(rt.toFloat(supplied.value).value)) &&
      (r.Err? ==> r.error == NotAFloat(p.name))
    ensures supplied.Some? && !IsBlankInput(supplied.value) && CoercionOf(p) == FromJson ==>
      (r.Ok? <==> rt.jsonLoads(supplied.value).Some?) &&
      (r.Ok? ==> r.value == rt.jsonLoads(supplied.value).value) &&
      (r.Err? ==> r.error == InvalidJson(p.name))
    ensures supplied.Some? && !IsBlankInput(supplied.value) && CoercionOf(p) == Verbatim ==>
      r == Ok(supplied.value)
  {
    match supplied
    case None => if Nullable(p.declared) then Ok(Null) else Err(MissingValue(p.name))
    case Some(v) =>
      if IsBlankInput(v) then
        if Nullable(p.declared) then Ok(Null) else Err(RequiredValue(p.name))
      else
        match CoercionOf(p)
        case ToInt => (match rt.toInt(v) case Some(n) => Ok(Int(n)) case None => Err(NotAnInteger(p.name)))
        case ToFloat => (match rt.toFloat(v) case Some(x) => Ok(Float(x)) case None => Err(NotAFloat(p.name)))
        case FromJson => (match rt.jsonLoads(v) case Some(j) => Ok(j) case None => Err(InvalidJson(p.name)))
        case Verbatim => Ok(v)
  }

  /** The first n parameters resolved in order; the first failure stops resolution. */
  function ResolvePrefix(schema: Schema, values: seq<Value>, n: nat, rt: Runtime): (r: Result<Dict, ParamError>)
    requires n <= |schema|
    ensures r.Ok? ==> |r.value| == n
  {
    if n == 0 then Ok([])
    else match ResolvePrefix(schema, values, n - 1, rt)
      case Err(e) => Err(e)
      case Ok(d) =>
        match ResolveParam(schema[n - 1], Supplied(values, n - 1), rt)
        case Err(e) => Err(e)
        case Ok(v) => Ok(d + [Binding(schema[n - 1].name, v)])
  }

  /** The parameter dict of the whole schema, or the first parameter error. */
  function Resolve(schema: Schema, values: seq<Value>, rt: Runtime): (r: Result<Dict, ParamError>)
    ensures r.Ok? ==> |r.value| == |schema|
  {
    ResolvePrefix(schema, values, |schema|, rt)
  }

  /** Once resolution has failed, resolving more parameters keeps the same error. */
  lemma {:induction false} ErrorPersists(schema: Schema, values: seq<Value>, n: nat, m: nat, rt: Runtime)
    requires n <= m <= |schema|
    requires ResolvePrefix(schema, values, n, rt).Err?
    ensures ResolvePrefix(schema, values, m, rt) == ResolvePrefix(schema, values, n, rt)
    decreases m - n
  {
    if n < m {
      ErrorPersists(schema, values, n, m - 1, rt);
    }
  }

  /**
    add_step's loop, as written: a cursor walks the form values; when they run
    out, a nullable parameter gets None without moving the cursor and any other
    parameter raises. The first error ends the loop.
  */
  method ResolveStepParams(schema: Schema, values: seq<Value>, rt: Runtime) returns (r: Result<Dict, ParamError>)
    ensures r == Resolve(schema, values, rt)
  {
    var paramDict: Dict := [];
    var cursor := 0;
    var i := 0;
    while i < |schema|
      invariant 0 <= i <= |schema|
      invariant cursor == if i <= |values| then i else |values|
      invariant ResolvePrefix(schema, values, i, rt) == Ok(paramDict)
    {
      var p := schema[i];
      if cursor >= |values| {
        if Nullable(p.declared) {
          paramDict := paramDict + [Binding(p.name, Null)];
          i := i + 1;
          continue;
        }
        ErrorPersists(schema, values, i + 1, |schema|, rt);
        return Err(MissingValue(p.name));
      }
      var value := values[cursor];
      if value == Null || value == Str("") {
        if Nullable(p.declared) {
          paramDict := paramDict + [Binding(p.name, Null)];
        } else {
          ErrorPersists(schema, values, i + 1, |schema|, rt);
          return Err(RequiredValue(p.name));
        }
      } else if p.declared == OptionalInt || IsIntInstance(p.default) {
        var n := rt.toInt(value);
        if n.None? {
          ErrorPersists(schema, values, i + 1, |schema|, rt);
          return Err(NotAnInteger(p.name));
        }
        paramDict := paramDict + [Binding(p.name, Int(n.value))];
      } else if p.declared == OptionalFloat || p.default.Float? {
        var x := rt.toFloat(value);
        if x.None? {
          ErrorPersists(schema, values, i + 1, |schema|, rt);
          return Err(NotAFloat(p.name));
        }
        paramDict := paramDict + [Binding(p.name, Float(x.value))];
      } else if p.declared == OptionalDict || p.declared == OptionalList || p.default.Dict? || p.default.List? {
        var j := rt.jsonLoads(value);
        if j.None? {
          ErrorPersists(schema, values, i + 1, |schema|, rt);
          return Err(InvalidJson(p.name));
        }
        paramDict := paramDict + [Binding(p.name, j.value)];
      } else {
        paramDict := paramDict + [Binding(p.name, value)];
      }
      cursor := cursor + 1;
      i := i + 1;
    }
    r := Ok(paramDict);
  }

  /**
    Resolution succeeds exactly when every parameter resolves, and then the dict
    holds one entry per parameter, in schema order, with that parameter's value.
  */
  lemma {:induction false} ResolvedPrefixShape(schema: Schema, values: seq<Value>, n: nat, rt: Runtime)
    requires n <= |schema|
    ensures ResolvePrefix(schema, values, n, rt).Ok? <==>
      forall i :: 0 <= i < n ==> ResolveParam(schema[i], Supplied(values, i), rt).Ok?
    ensures ResolvePrefix(schema, values, n, rt).Ok? ==>
      var d := ResolvePrefix(schema, values, n, rt).value;
      |d| == n &&
      forall i :: 0 <= i < n ==> d[i] == Binding(schema[i].name, ResolveParam(schema[i], Supplied(values, i), rt).value)
  {
    if n > 0 {
      ResolvedPrefixShape(schema, values, n - 1, rt);
    }
  }

  /** The whole-schema form of ResolvedPrefixShape. */
  lemma ResolvedShape(schema: Schema, values: seq<Value>, rt: Runtime)
    ensures Resolve(schema, values, rt).Ok? <==>
      forall i :: 0 <= i < |schema| ==> ResolveParam(schema[i], Supplied(values, i), rt).Ok?
    ensures Resolve(schema, values, rt).Ok? ==>
      Keys(Resolve(schema, values, rt).value) == seq(|schema|, i requires 0 <= i < |schema| => schema[i].name)
  {
    ResolvedPrefixShape(schema, values, |schema|, rt);
  }

  /** A failure names the first parameter that does not resolve. */
  lemma {:induction false} FirstFailureReported(schema: Schema, values: seq<Value>, n: nat, rt: Runtime)
    requires n <= |schema|
    requires ResolvePrefix(schema, values, n, rt).Err?
    ensures exists k :: (0 <= k < n
      && ResolveParam(schema[k], Supplied(values, k), rt) == Err(ResolvePrefix(schema, values, n, rt).error)
      && forall j :: 0 <= j < k ==> ResolveParam(schema[j], Supplied(values, j), rt).Ok?)
  {
    var prev := ResolvePrefix(schema, values, n - 1, rt);
    if prev.Err? {
      FirstFailureReported(schema, values, n - 1, rt);
    } else {
      ResolvedPrefixShape(schema, values, n - 1, rt);
      assert ResolveParam(schema[n - 1], Supplied(values, n - 1), rt).Err?;
    }
  }

  /**
    When the form supplies fewer values than there are parameters, resolution
    succeeds only if every parameter past the values is nullable, and each of
    them is then None.
  */
  lemma ExhaustedValuesAreNone(schema: Schema, values: seq<Value>, rt: Runtime, k: nat)
    requires |values| <= k < |schema|
    requires Resolve(schema, values, rt).Ok?
    ensures Nullable(schema[k].declared)
    ensures Resolve(schema, values, rt).value[k] == Binding(schema[k].name, Null)
  {
    ResolvedPrefixShape(schema, values, |schema|, rt);
    assert ResolveParam(schema[k], Supplied(values, k), rt).Ok?;
  }

  /** A non-nullable parameter with no value left makes the whole resolution fail. */
  lemma MissingRequiredFails(schema: Schema, values: seq<Value>, rt: Runtime, k: nat)
    requires |values| <= k < |schema|
    requires !Nullable(schema[k].declared)
    ensures Resolve(schema, values, rt).Err?
  {
    ResolvedPrefixShape(schema, values, |schema|, rt);
    assert ResolveParam(schema[k], Supplied(values, k), rt).Err?;
  }
}
