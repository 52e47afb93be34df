/**
  The dynamically typed values that the handlers pass around (Python's None, bool,
  int, float, str, list and dict), the string helpers they use (str.strip, str.split)
  and the library behaviour they rely on, kept abstract.
*/
module PyValues {
  import opened Wrappers

  /** A Python value. A dict keeps its insertion order, as Python's does. */
  datatype Value =
    | Null
    | Bool(b: bool)
    | Int(i: int)
    | Float(x: real)
    | Str(s: string)
    | List(items: seq<Value>)
    | Dict(entries: seq<Binding>)

  /** One key of a dict with its value. */
  datatype Binding = Binding(key: string, value: Value)

  /** An ordered dict with string keys. */
  type Dict = seq<Binding>

  /**
    Library behaviour the model does not re-implement. A function returning
    None stands for a call that raises.
  */
  datatype Runtime = Runtime(
    toInt: Value -> Option<int>,        // int(v)
    toFloat: Value -> Option<real>,     // float(v)
    jsonLoads: Value -> Option<Value>,  // json.loads(v)
    jsonDumps: Value -> string,         // json.dumps(v)
    repr: Value -> string,              // str(v) for a dict or a list
    lower: string -> string             // str.lower()
  )

  /** Python's truth value of v (`if v:`). */
  predicate Truthy(v: Value)
  {
    match v
    case Null => false
    case Bool(b) => b
    case Int(i) => i != 0
    case Float(x) => x != 0.0
    case Str(s) => s != ""
    case List(items) => items != []
    case Dict(entries) => entries != []
  }

  /** `v is None or v == ""`: the empty input of a form field. */
  predicate IsBlankInput(v: Value)
  {
    v == Null || v == Str("")
  }

  /** isinstance(v, int): a bool is an int in Python. */
  predicate IsIntInstance(v: Value)
  {
    v.Int? || v.Bool?
  }

  /** The keys of a dict, in order. */
  function Keys(d: Dict): (ks: seq<string>)
    ensures |ks| == |d|
    ensures forall i :: 0 <= i < |d| ==> ks[i] == d[i].key
  {
    if d == [] then [] else [d[0].key] + Keys(d[1..])
  }

  /** Every key of d occurs once, as in a Python dict. */
  predicate UniqueKeys(d: Dict)
  {
    forall i, j :: 0 <= i < j < |d| ==> d[i].key != d[j].key
  }

  /** d.get(k): the value stored under k, if any. */
  function Get(d: Dict, k: string): (r: Option<Value>)
    ensures r.Some? <==> exists i :: 0 <= i < |d| && d[i].key == k
    ensures r.Some? ==> exists i :: 0 <= i < |d| && d[i].key == k && d[i].value == r.value
  {
    if d == [] then None
    else if d[0].key == k then Some(d[0].value)
    else
      var r := Get(d[1..], k);
      assert forall i :: 1 <= i < |d| ==> d[i] == d[1..][i - 1];
      r
  }

  /** `k in d`. */
  predicate HasKey(d: Dict, k: string)
  {
    Get(d, k).Some?
  }

  /** The characters str.isspace() accepts. */
  predicate IsSpace(c: char)
  {
    || ('\t' <= c <= '\r')
    || ('\U{1c}' <= c <= '\U{1f}')
    || c == ' ' || c == '\U{85}' || c == '\U{a0}' || c == '\U{1680}'
    || ('\U{2000}' <= c <= '\U{200a}')
    || c == '\U{2028}' || c == '\U{2029}' || c == '\U{202f}' || c == '\U{205f}' || c == '\U{3000}'
  }

  /** Every character of s is whitespace (also true of ""). */
  predicate AllSpace(s: string)
  {
    forall i :: 0 <= i < |s| ==> IsSpace(s[i])
  }

  /** s.lstrip(): s without its leading whitespace. */
  function StripLeft(s: string): (r: string)
    ensures |r| <= |s| && r == s[|s| - |r|..]
    ensures forall i :: 0 <= i < |s| - |r| ==> IsSpace(s[i])
    ensures r != [] ==> !IsSpace(r[0])
  {
    if s != [] && IsSpace(s[0]) then
      var r := StripLeft(s[1..]);
      assert forall i :: 1 <= i < |s| ==> s[i] == s[1..][i - 1];
      r
    else s
  }

  /** s.rstrip(): s without its trailing whitespace. */
  function StripRight(s: string): (r: string)
    ensures |r| <= |s| && r == s[..|r|]
    ensures forall i :: |r| <= i < |s| ==> IsSpace(s[i])
    ensures r != [] ==> !IsSpace(r[|r| - 1])
  {
    if s != [] && IsSpace(s[|s| - 1]) then
      var r := StripRight(s[..|s| - 1]);
      assert forall i :: 0 <= i < |s| - 1 ==> s[i] == s[..|s| - 1][i];
      r
    else s
  }

  /** s.strip(). */
  function Strip(s: string): string
  {
    StripRight(StripLeft(s))
  }

  /** `not s.strip()` holds exactly when s is empty or all whitespace. */
  lemma StripEmptyIffBlank(s: string)
    ensures Strip(s) == "" <==> AllSpace(s)
  {
    var l := StripLeft(s);
    if !AllSpace(s) {
      var k :| 0 <= k < |s| && !IsSpace(s[k]);
      assert k >= |s| - |l|;
      assert l != [] && !IsSpace(l[0]);
    }
  }

  /** The length of the leading run of non-whitespace characters of s. */
  function TokenLength(s: string): (n: nat)
    ensures n <= |s|
    ensures forall i :: 0 <= i < n ==> !IsSpace(s[i])
    ensures n < |s| ==> IsSpace(s[n])
  {
    if s == [] || IsSpace(s[0]) then 0 else 1 + TokenLength(s[1..])
  }

  /** s.split() with no separator: the maximal runs of non-whitespace characters. */
  function SplitWords(s: string): (words: seq<string>)
    decreases |s|
  {
    var t := StripLeft(s);
    if t == [] then []
    else
      var n := TokenLength(t);
      [t[..n]] + SplitWords(t[n..])
  }

  /** No word of s.split() is empty or holds whitespace. */
  lemma {:induction false} SplitWordsAreWords(s: string)
    ensures forall k :: 0 <= k < |SplitWords(s)| ==> SplitWords(s)[k] != "" && !exists i :: 0 <= i < |SplitWords(s)[k]| && IsSpace(SplitWords(s)[k][i])
    decreases |s|
  {
    var t := StripLeft(s);
    if t != [] {
      var n := TokenLength(t);
      assert n > 0;
      SplitWordsAreWords(t[n..]);
      var w := SplitWords(s);
      assert w == [t[..n]] + SplitWords(t[n..]);
      forall k | 0 <= k < |w|
        ensures w[k] != "" && !exists i :: 0 <= i < |w[k]| && IsSpace(w[k][i])
      {
        if k > 0 { assert w[k] == SplitWords(t[n..])[k - 1]; }
      }
    }
  }

  /** s.split() is empty exactly when s is empty or all whitespace. */
  lemma SplitWordsEmptyIffBlank(s: string)
    ensures SplitWords(s) == [] <==> AllSpace(s)
  {
    var t := StripLeft(s);
    if !AllSpace(s) {
      var k :| 0 <= k < |s| && !IsSpace(s[k]);
      assert k >= |s| - |t|;
    }
  }
}
