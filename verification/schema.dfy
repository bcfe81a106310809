/** The string-keyed meta schema of parties and party members. A schema is a
    Python dict, modelled as an association list with distinct keys that
    keeps insertion order: assigning an existing key replaces its value in
    place, assigning a new key appends it. The last character of a key
    chooses how a value is stored and read back: `j` JSON, `U` integer,
    `b` boolean, anything else text. */
module Schemas {
  import opened Wrappers
  import opened PyText
  import opened PyValues
  import opened Exceptions

  /** A value held in a schema. `Text` is any `str`, including the JSON text
      the service sends, which is stored as received. `Json(v)` stands for
      the text `json.dumps(v)`; decoding it gives `v` back, which is the
      round trip JSON guarantees. `Int` is what `int(value)` stores. */
  datatype Stored = Text(s: string) | Int(i: int) | Json(v: PyValue)

  type Entry = (string, Stored)

  // ------------------------------------------------------ dict semantics

  predicate DistinctKeys(kvs: seq<Entry>) {
    forall i, j :: 0 <= i < j < |kvs| ==> kvs[i].0 != kvs[j].0
  }

  predicate HasKey(kvs: seq<Entry>, k: string) {
    exists i :: 0 <= i < |kvs| && kvs[i].0 == k
  }

  /** `d.get(k)`. */
  function Lookup(kvs: seq<Entry>, k: string): (r: Option<Stored>)
    ensures r.None? <==> !HasKey(kvs, k)
    ensures r.Some? ==> (k, r.value) in kvs
  {
    if kvs == [] then None
    else if kvs[0].0 == k then Some(kvs[0].1)
    else
      var r := Lookup(kvs[1..], k);
      assert HasKey(kvs[1..], k) ==> HasKey(kvs, k) by {
        if HasKey(kvs[1..], k) {
          var i :| 0 <= i < |kvs[1..]| && kvs[1..][i].0 == k;
          assert kvs[i + 1].0 == k;
        }
      }
      r
  }

  /** In a dict, the entry for a key is the one `get` returns. */
  lemma {:induction false} LookupOfEntry(kvs: seq<Entry>, i: nat)
    requires DistinctKeys(kvs) && i < |kvs|
    ensures Lookup(kvs, kvs[i].0) == Some(kvs[i].1)
  {
    if i > 0 {
      TailDistinct(kvs);
      LookupOfEntry(kvs[1..], i - 1);
    }
  }

  lemma TailDistinct(kvs: seq<Entry>)
    requires kvs != [] && DistinctKeys(kvs)
    ensures DistinctKeys(kvs[1..])
    ensures forall e :: e in kvs[1..] ==> e.0 != kvs[0].0
  {
    forall a, b | 0 <= a < b < |kvs[1..]| ensures kvs[1..][a].0 != kvs[1..][b].0 {
      assert kvs[1..][a] == kvs[a + 1] && kvs[1..][b] == kvs[b + 1];
    }
    forall e | e in kvs[1..] ensures e.0 != kvs[0].0 {
      var a :| 0 <= a < |kvs[1..]| && kvs[1..][a] == e;
      assert kvs[a + 1] == e;
    }
  }

  lemma HasKeyCons(kvs: seq<Entry>, k: string)
    requires kvs != []
    ensures HasKey(kvs, k) <==> kvs[0].0 == k || HasKey(kvs[1..], k)
  {
    if HasKey(kvs, k) && kvs[0].0 != k {
      var i :| 0 <= i < |kvs| && kvs[i].0 == k;
      assert kvs[1..][i - 1].0 == k;
    }
    if HasKey(kvs[1..], k) {
      var i :| 0 <= i < |kvs[1..]| && kvs[1..][i].0 == k;
      assert kvs[i + 1].0 == k;
    }
  }

  /** A key not in a list of entries differs from the key of every entry. */
  lemma ConsDistinct(e: Entry, rest: seq<Entry>)
    requires DistinctKeys(rest) && forall x :: x in rest ==> x.0 != e.0
    ensures DistinctKeys([e] + rest)
  {
    var r := [e] + rest;
    forall a, b | 0 <= a < b < |r| ensures r[a].0 != r[b].0 {
      assert r[b] == rest[b - 1];
      if a > 0 {
        assert r[a] == rest[a - 1];
      } else {
        assert r[b] in rest;
      }
    }
  }

  /** `d[k] = v`: an existing key keeps its place and takes the new value,
      a new key goes last. */
  function Put(kvs: seq<Entry>, k: string, v: Stored): (r: seq<Entry>)
    ensures |r| == |kvs| || |r| == |kvs| + 1
  {
    if kvs == [] then [(k, v)]
    else if kvs[0].0 == k then [(k, v)] + kvs[1..]
    else [kvs[0]] + Put(kvs[1..], k, v)
  }

  /** After `d[k] = v`, `k` holds `v` and every other key what it held. */
  lemma {:induction false} PutLookup(kvs: seq<Entry>, k: string, v: Stored, j: string)
    ensures Lookup(Put(kvs, k, v), j) == if j == k then Some(v) else Lookup(kvs, j)
  {
    if kvs != [] && kvs[0].0 != k {
      PutLookup(kvs[1..], k, v, j);
      assert Put(kvs, k, v)[1..] == Put(kvs[1..], k, v);
    }
  }

  /** `d[k] = v` keeps every key in its place, adds `k` only when it is new,
      and keeps a dict a dict. */
  lemma {:induction false} PutShape(kvs: seq<Entry>, k: string, v: Stored)
    ensures var r := Put(kvs, k, v);
      && |r| == (if HasKey(kvs, k) then |kvs| else |kvs| + 1)
      && (forall i :: 0 <= i < |kvs| ==> r[i].0 == kvs[i].0)
      && (forall e :: e in r ==> e == (k, v) || e in kvs)
      && (DistinctKeys(kvs) ==> DistinctKeys(r))
  {
    if kvs == [] {
    } else if kvs[0].0 == k {
      HasKeyCons(kvs, k);
      if DistinctKeys(kvs) {
        TailDistinct(kvs);
        ConsDistinct((k, v), kvs[1..]);
      }
    } else {
      var rest := Put(kvs[1..], k, v);
      PutShape(kvs[1..], k, v);
      assert Put(kvs, k, v) == [kvs[0]] + rest;
      HasKeyCons(kvs, k);
      if DistinctKeys(kvs) {
        TailDistinct(kvs);
        ConsDistinct(kvs[0], rest);
      }
    }
  }

  /** `del d[k]` where a missing key is ignored: the entry goes, every other
      entry stays in its order. */
  function Delete(kvs: seq<Entry>, k: string): (r: seq<Entry>)
    ensures |r| <= |kvs|
  {
    if kvs == [] then []
    else if kvs[0].0 == k then Delete(kvs[1..], k)
    else [kvs[0]] + Delete(kvs[1..], k)
  }

  /** After deleting `k`, `k` is absent and every other key holds what it
      held. */
  lemma {:induction false} DeleteLookup(kvs: seq<Entry>, k: string, j: string)
    ensures Lookup(Delete(kvs, k), j) == if j == k then None else Lookup(kvs, j)
  {
    if kvs != [] {
      DeleteLookup(kvs[1..], k, j);
      if kvs[0].0 != k {
        assert Delete(kvs, k)[1..] == Delete(kvs[1..], k);
      }
    }
  }

  /** Deleting keeps only entries that were there, changes nothing when the
      key is missing, and keeps a dict a dict. */
  lemma {:induction false} DeleteShape(kvs: seq<Entry>, k: string)
    ensures var r := Delete(kvs, k);
      && (forall e :: e in r ==> e in kvs)
      && (!HasKey(kvs, k) ==> r == kvs)
      && (DistinctKeys(kvs) ==> DistinctKeys(r))
  {
    if kvs != [] {
      var rest := Delete(kvs[1..], k);
      DeleteShape(kvs[1..], k);
      assert forall e :: e in kvs[1..] ==> e in kvs;
      assert Delete(kvs, k) == if kvs[0].0 == k then rest else [kvs[0]] + rest;
      HasKeyCons(kvs, k);
      if DistinctKeys(kvs) {
        TailDistinct(kvs);
        if kvs[0].0 != k {
          ConsDistinct(kvs[0], rest);
        }
      }
    }
  }

  /** Deleting several keys one after the other, each missing one ignored. */
  function DeleteAll(kvs: seq<Entry>, keys: seq<string>): (r: seq<Entry>)
    ensures |r| <= |kvs|
  {
    if keys == [] then kvs
    else Delete(DeleteAll(kvs, keys[..|keys| - 1]), keys[|keys| - 1])
  }

  /** After deleting several keys, each of them is absent and every other key
      holds what it held. */
  lemma {:induction false} DeleteAllLookup(kvs: seq<Entry>, keys: seq<string>, j: string)
    ensures Lookup(DeleteAll(kvs, keys), j) == if j in keys then None else Lookup(kvs, j)
  {
    if keys != [] {
      var front := keys[..|keys| - 1];
      DeleteAllLookup(kvs, front, j);
      DeleteLookup(DeleteAll(kvs, front), keys[|keys| - 1], j);
      assert keys == front + [keys[|keys| - 1]];
    }
  }

  /** `list(d.items())[:n]` with Python's slice bound: `None` keeps
      everything, a negative bound counts from the end. */
  function SliceBound(len: nat, n: Option<int>): (b: nat)
    ensures b <= len
    ensures n.None? ==> b == len
    ensures n.Some? && n.value >= 0 ==> b == if n.value < len then n.value else len
    ensures n.Some? && n.value < 0 ==> b == if len + n.value < 0 then 0 else len + n.value
  {
    match n
    case None => len
    case Some(m) =>
      if m >= 0 then (if m < len then m else len)
      else if len + m < 0 then 0 else len + m
  }

  // --------------------------------------------------- typing by suffix

  /** `prop[-1:]`: the last character, or the empty string. */
  function Suffix(prop: string): (t: string)
    ensures |t| <= 1
    ensures prop != [] ==> t == [prop[|prop| - 1]]
  {
    if prop == [] then [] else [prop[|prop| - 1]]
  }

  /** What `set_prop` can have put under a key: JSON only under a `j` key,
      an integer only under a `U` key; text anywhere. */
  predicate Typed(prop: string, v: Stored) {
    (v.Json? ==> Suffix(prop) == "j") && (v.Int? ==> Suffix(prop) == "U")
  }

  predicate AllTyped(kvs: seq<Entry>) {
    forall e :: e in kvs ==> Typed(e.0, e.1)
  }

  /** The type name Python's error messages use for a value. */
  function TypeName(v: PyValue): string {
    match v
    case PyNone => "NoneType"
    case PyBool(_) => "bool"
    case PyInt(_) => "int"
    case PyStr(_) => "str"
    case PyList(_) => "list"
    case PyDict(_) => "dict"
  }

  /** `int(v)`. */
  function IntOf(v: PyValue): (r: Result<int, Exc>)
    ensures v.PyInt? ==> r == Ok(v.i)
    ensures v.PyBool? ==> r == Ok(if v.b then 1 else 0)
    ensures v.PyStr? ==> (r.Ok? <==> ParseInt(v.s).Some?)
    ensures (v.PyNone? || v.PyList? || v.PyDict?) ==> r.Err? && r.error.TypeError?
  {
    match v
    case PyInt(i) => Ok(i)
    case PyBool(b) => Ok(if b then 1 else 0)
    case PyStr(s) =>
      (match ParseInt(s)
       case Some(n) => Ok(n)
       case None => Err(ValueError("invalid literal for int() with base 10: " + Repr(s))))
    case _ =>
      Err(TypeError("int() argument must be a string, a bytes-like object or a number, not '"
                    + TypeName(v) + "'"))
  }

  /** The value `set_prop(prop, value, raw=raw)` stores, or the exception
      it raises (only `int()` of a `U` value can fail). */
  function Encode(prop: string, value: PyValue, raw: bool): (r: Result<Stored, Exc>)
    ensures r.Ok? ==> Typed(prop, r.value)
    ensures r.Err? <==> !raw && Suffix(prop) == "U" && IntOf(value).Err?
    ensures raw || (Suffix(prop) != "j" && Suffix(prop) != "U") ==> r == Ok(Text(Str(value)))
  {
    if raw then Ok(Text(Str(value)))
    else if Suffix(prop) == "j" then Ok(Json(value))
    else if Suffix(prop) == "U" then
      (match IntOf(value)
       case Ok(n) => Ok(Int(n))
       case Err(e) => Err(e))
    else Ok(Text(Str(value)))
  }

  /** The value `get_prop(prop)` returns when the schema holds `v` under
      `prop`; `loads` decodes JSON text received from the service. */
  function Decode(prop: string, v: Option<Stored>, loads: string -> Option<PyValue>): (r: Result<PyValue, Exc>)
    requires v.Some? ==> Typed(prop, v.value)
    ensures Suffix(prop) == "b" ==>
      r == Ok(PyBool(!(v.None? || (v.value.Text? && Lower(v.value.s) == "false"))))
    ensures v.None? ==> r == Ok(if Suffix(prop) == "b" then PyBool(false)
                                else if Suffix(prop) == "j" then PyDict([])
                                else if Suffix(prop) == "U" then PyInt(0)
                                else PyStr(""))
    ensures r.Err? ==> v.Some? && v.value.Text? && (Suffix(prop) == "j" || Suffix(prop) == "U")
  {
    var t := Suffix(prop);
    if t == "b" then
      Ok(PyBool(!(v.None? || (v.value.Text? && Lower(v.value.s) == "false"))))
    else if t == "j" then
      match v
      case None => Ok(PyDict([]))
      case Some(Json(x)) => Ok(x)
      case Some(Text(s)) =>
        (match loads(s)
         case Some(x) => Ok(x)
         case None => Err(ValueError("Expecting value")))
      case Some(Int(_)) => assert false; Ok(PyNone)
    else if t == "U" then
      match v
      case None => Ok(PyInt(0))
      case Some(Int(n)) => Ok(PyInt(n))
      case Some(Text(s)) =>
        (match ParseInt(s)
         case Some(n) => Ok(PyInt(n))
         case None => Err(ValueError("invalid literal for int() with base 10: " + Repr(s))))
      case Some(Json(_)) => assert false; Ok(PyNone)
    else
      match v
      case None => Ok(PyStr(""))
      case Some(Text(s)) => Ok(PyStr(s))
      case Some(Int(n)) => Ok(PyStr(IntToString(n)))
      case Some(Json(_)) => assert false; Ok(PyNone)
  }

  /** Entry `i` is the last one with its key. */
  predicate LastKey<V>(kvs: seq<(string, V)>, i: int)
    requires 0 <= i < |kvs|
  {
    forall j :: i < j < |kvs| ==> kvs[j].0 != kvs[i].0
  }

  /** Each item with the value `set_prop` would store for it, or the
      exception it would raise. */
  function Staged(kvs: seq<(string, PyValue)>, raw: bool): (r: seq<(string, Result<Stored, Exc>)>)
    ensures |r| == |kvs|
    ensures forall i :: 0 <= i < |kvs| ==> r[i] == (kvs[i].0, Encode(kvs[i].0, kvs[i].1, raw))
  {
    seq(|kvs|, i requires 0 <= i < |kvs| => (kvs[i].0, Encode(kvs[i].0, kvs[i].1, raw)))
  }

  /** Assigning staged values in turn, stopping at the first exception: the
      schema afterwards and the exception. */
  function PutEach(s: seq<Entry>, items: seq<(string, Result<Stored, Exc>)>): (r: (seq<Entry>, Option<Exc>))
    ensures r.1.None? <==> forall i :: 0 <= i < |items| ==> items[i].1.Ok?
    ensures r.1.Some? ==> exists i :: 0 <= i < |items| && items[i].1 == Err(r.1.value)
  {
    if items == [] then (s, None)
    else
      var n := |items| - 1;
      assert forall i :: 0 <= i < n ==> items[..n][i] == items[i];
      var (t, e) := PutEach(s, items[..n]);
      if e.Some? then (t, e)
      else
        match items[n].1
        case Err(x) => (t, Some(x))
        case Ok(v) => (Put(t, items[n].0, v), None)
  }

  /** `update(schema, raw=raw)`: `set_prop` for every item in turn, stopping
      at the first that raises. */
  function SetAll(s: seq<Entry>, kvs: seq<(string, PyValue)>, raw: bool): (r: (seq<Entry>, Option<Exc>))
    ensures r.1.None? <==> forall i :: 0 <= i < |kvs| ==> Encode(kvs[i].0, kvs[i].1, raw).Ok?
    ensures r.1.Some? ==> exists i :: 0 <= i < |kvs| && Encode(kvs[i].0, kvs[i].1, raw) == Err(r.1.value)
  {
    PutEach(s, Staged(kvs, raw))
  }

  /** Staging a prefix stages the prefix of the items. */
  lemma StagedPrefix(kvs: seq<(string, PyValue)>, raw: bool, m: nat)
    requires m <= |kvs|
    ensures Staged(kvs, raw)[..m] == Staged(kvs[..m], raw)
  {
    var a := Staged(kvs, raw)[..m];
    var b := Staged(kvs[..m], raw);
    forall i | 0 <= i < m ensures a[i] == b[i] {
      assert kvs[..m][i] == kvs[i];
    }
  }

  /** `SetAll` over a list is `SetAll` over all but the last item, then
      that item. */
  lemma SetAllStep(s: seq<Entry>, kvs: seq<(string, PyValue)>, raw: bool)
    requires kvs != []
    ensures var n := |kvs| - 1;
      var r := SetAll(s, kvs[..n], raw);
      SetAll(s, kvs, raw) ==
        if r.1.Some? then r
        else match Encode(kvs[n].0, kvs[n].1, raw)
             case Err(x) => (r.0, Some(x))
             case Ok(v) => (Put(r.0, kvs[n].0, v), None)
  {
    StagedPrefix(kvs, raw, |kvs| - 1);
  }

  /** Once an assignment raised, the ones after it change nothing. */
  lemma {:induction false} PutEachErrorSticks(s: seq<Entry>, items: seq<(string, Result<Stored, Exc>)>, m: nat)
    requires m <= |items| && PutEach(s, items[..m]).1.Some?
    ensures PutEach(s, items) == PutEach(s, items[..m])
    decreases |items| - m
  {
    if m == |items| {
      assert items[..m] == items;
    } else {
      var front := items[..|items| - 1];
      assert front[..m] == items[..m];
      PutEachErrorSticks(s, front, m);
    }
  }

  /** Once an item raised, the items after it change nothing. */
  lemma SetAllErrorSticks(s: seq<Entry>, kvs: seq<(string, PyValue)>, raw: bool, m: nat)
    requires m <= |kvs| && SetAll(s, kvs[..m], raw).1.Some?
    ensures SetAll(s, kvs, raw) == SetAll(s, kvs[..m], raw)
  {
    StagedPrefix(kvs, raw, m);
    PutEachErrorSticks(s, Staged(kvs, raw), m);
  }

  /** The next item of an update that has not raised so far: one that
      raises ends the whole update there, one that does not is stored. */
  lemma SetAllNext(s: seq<Entry>, kvs: seq<(string, PyValue)>, raw: bool, i: nat, cur: seq<Entry>)
    requires i < |kvs| && SetAll(s, kvs[..i], raw) == (cur, None)
    ensures var x := Encode(kvs[i].0, kvs[i].1, raw);
      (x.Err? ==> SetAll(s, kvs, raw) == (cur, Some(x.error))) &&
      (x.Ok? ==> SetAll(s, kvs[..i + 1], raw) == (Put(cur, kvs[i].0, x.value), None))
  {
    var pre := kvs[..i + 1];
    SetAllStep(s, pre, raw);
    assert pre[..i] == kvs[..i] && pre[i] == kvs[i];
    var x := Encode(kvs[i].0, kvs[i].1, raw);
    if x.Err? {
      assert SetAll(s, pre, raw) == (cur, Some(x.error));
      SetAllErrorSticks(s, kvs, raw, i + 1);
    }
  }

  /** After the assignments, a key they do not name keeps its value. */
  lemma {:induction false} PutEachKeepsOthers(s: seq<Entry>, items: seq<(string, Result<Stored, Exc>)>, j: string)
    requires forall i :: 0 <= i < |items| ==> items[i].0 != j
    ensures Lookup(PutEach(s, items).0, j) == Lookup(s, j)
  {
    if items != [] {
      var n := |items| - 1;
      assert forall i :: 0 <= i < n ==> items[..n][i] == items[i];
      PutEachKeepsOthers(s, items[..n], j);
      var (t, e) := PutEach(s, items[..n]);
      if e.None? && items[n].1.Ok? {
        PutLookup(t, items[n].0, items[n].1.value, j);
      }
    }
  }

  /** When nothing raised, a key the assignments name holds its last value. */
  lemma {:induction false} PutEachSetsLast(s: seq<Entry>, items: seq<(string, Result<Stored, Exc>)>, k: nat)
    requires k < |items| && LastKey(items, k)
    requires PutEach(s, items).1.None?
    ensures items[k].1.Ok?
    ensures Lookup(PutEach(s, items).0, items[k].0) == Some(items[k].1.value)
    decreases |items|, 1
  {
    var n := |items| - 1;
    if k < n {
      SetsLastStep(s, items, k);
    } else {
      var front := items[..n];
      var (t, e) := PutEach(s, front);
      assert e.None?;
      assert PutEach(s, items).0 == Put(t, items[n].0, items[n].1.value);
      PutLookup(t, items[n].0, items[n].1.value, items[n].0);
    }
  }

  lemma SetsLastStep(s: seq<Entry>, items: seq<(string, Result<Stored, Exc>)>, k: nat)
    requires k < |items| - 1 && LastKey(items, k)
    requires PutEach(s, items).1.None?
    ensures items[k].1.Ok?
    ensures Lookup(PutEach(s, items).0, items[k].0) == Some(items[k].1.value)
    decreases |items|, 0
  {
    var n := |items| - 1;
    var front := items[..n];
    assert forall i :: 0 <= i < n ==> front[i] == items[i];
    assert LastKey(front, k);
    PutEachSetsLast(s, front, k);
    var t := PutEach(s, front).0;
    assert items[k].0 != items[n].0;
    assert PutEach(s, items).0 == Put(t, items[n].0, items[n].1.value);
    PutLookup(t, items[n].0, items[n].1.value, items[k].0);
  }

  /** After an update, a key it does not name keeps its value. */
  lemma SetAllKeepsOthers(s: seq<Entry>, kvs: seq<(string, PyValue)>, raw: bool, j: string)
    requires forall i :: 0 <= i < |kvs| ==> kvs[i].0 != j
    ensures Lookup(SetAll(s, kvs, raw).0, j) == Lookup(s, j)
  {
    PutEachKeepsOthers(s, Staged(kvs, raw), j);
  }

  /** When no item raised, a key the update names holds the stored form of
      its last value. */
  lemma SetAllSetsLast(s: seq<Entry>, kvs: seq<(string, PyValue)>, raw: bool, k: nat)
    requires k < |kvs| && LastKey(kvs, k)
    requires SetAll(s, kvs, raw).1.None?
    ensures Encode(kvs[k].0, kvs[k].1, raw).Ok?
    ensures Lookup(SetAll(s, kvs, raw).0, kvs[k].0) == Some(Encode(kvs[k].0, kvs[k].1, raw).value)
  {
    var items := Staged(kvs, raw);
    assert LastKey(items, k);
    PutEachSetsLast(s, items, k);
  }

  /** A raw update never raises, and afterwards a key it names holds the
      text of its last value. */
  lemma RawUpdate(s: seq<Entry>, kvs: seq<(string, PyValue)>, k: nat)
    requires k < |kvs| && LastKey(kvs, k)
    ensures SetAll(s, kvs, true).1 == None
    ensures Lookup(SetAll(s, kvs, true).0, kvs[k].0) == Some(Text(Str(kvs[k].1)))
  {
    SetAllSetsLast(s, kvs, true, k);
  }

  /** Reading back what `set_prop` stored: a `j` key gives the value itself,
      a `U` key gives `int(value)`, a `b` key gives false exactly for a value
      whose text is "false" in any case, any other key gives `str(value)`. */
  lemma SetThenGet(prop: string, value: PyValue, loads: string -> Option<PyValue>)
    requires Encode(prop, value, false).Ok?
    ensures var r := Decode(prop, Some(Encode(prop, value, false).value), loads);
      && (Suffix(prop) == "j" ==> r == Ok(value))
      && (Suffix(prop) == "U" ==> r == Ok(PyInt(IntOf(value).value)))
      && (Suffix(prop) == "b" ==> r == Ok(PyBool(Lower(Str(value)) != "false")))
      && (Suffix(prop) != "j" && Suffix(prop) != "U" && Suffix(prop) != "b" ==> r == Ok(PyStr(Str(value))))
  {
  }

  /** A raw `set_prop` stores text, which an integer key reads back through
      `int()`: an integer written raw reads back as itself. */
  lemma RawIntRoundTrip(prop: string, n: int, loads: string -> Option<PyValue>)
    requires Suffix(prop) == "U"
    ensures Decode(prop, Some(Encode(prop, PyInt(n), true).value), loads) == Ok(PyInt(n))
  {
    IntRoundTrip(n);
  }
}
