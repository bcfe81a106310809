/** The dynamically typed values the library stores in dictionaries (party
    meta, HTTP error bodies, parameter defaults), with Python's `str()`,
    `repr()` and truthiness. */
module PyValues {
  import opened PyText

  datatype PyValue =
    | PyNone
    | PyBool(b: bool)
    | PyInt(i: int)
    | PyStr(s: string)
    | PyList(items: seq<PyValue>)
    | PyDict(entries: seq<(string, PyValue)>)

  /** `bool(v)`. */
  predicate Truthy(v: PyValue) {
    match v
    case PyNone => false
    case PyBool(b) => b
    case PyInt(i) => i != 0
    case PyStr(s) => s != ""
    case PyList(xs) => xs != []
    case PyDict(kvs) => kvs != []
  }

  /** `str(v)`. Containers print their elements with `repr`. */
  function Str(v: PyValue): string
    decreases v, 0
  {
    match v
    case PyNone => "None"
    case PyBool(b) => if b then "True" else "False"
    case PyInt(i) => IntToString(i)
    case PyStr(s) => s
    case PyList(xs) =>
      "[" + Join(seq(|xs|, k requires 0 <= k < |xs| => ReprValue(xs[k])), ", ") + "]"
    case PyDict(kvs) =>
      "{" + Join(seq(|kvs|, k requires 0 <= k < |kvs| =>
                   Repr(kvs[k].0) + ": " + ReprValue(kvs[k].1)), ", ") + "}"
  }

  /** `repr(v)`: strings are quoted, everything else prints as `str`. */
  function ReprValue(v: PyValue): string
    decreases v, 1
  {
    match v
    case PyStr(s) => Repr(s)
    case _ => Str(v)
  }

  /** `d.get(key)` on a dictionary value: the value of the first entry with
      that key, `None` when there is none. */
  function DictGet(kvs: seq<(string, PyValue)>, key: string): (r: Option<PyValue>)
    ensures r.None? <==> forall k :: 0 <= k < |kvs| ==> kvs[k].0 != key
    ensures r.Some? ==> exists k :: 0 <= k < |kvs| && kvs[k] == (key, r.value) &&
                                    forall j :: 0 <= j < k ==> kvs[j].0 != key
  {
    if kvs == [] then None
    else if kvs[0].0 == key then Some(kvs[0].1)
    else
      var r := DictGet(kvs[1..], key);
      assert forall k :: 0 < k < |kvs| ==> kvs[1..][k - 1] == kvs[k];
      if r.Some? then
        var k :| 0 <= k < |kvs[1..]| && kvs[1..][k] == (key, r.value) &&
                 forall j :: 0 <= j < k ==> kvs[1..][j].0 != key;
        assert kvs[k + 1] == (key, r.value);
        r
      else r
  }

  import opened Wrappers
}
