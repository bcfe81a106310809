/** The party state the client keeps locally: the meta schema of a party or a
    party member (`MetaBase`), the meta partials a default member
    configuration replays, the diff `_edit` sends after running the meta
    coroutines, the members' roles and the validation of a new maximum
    party size. */
module Parties {
  import opened Wrappers
  import opened PyText
  import opened PyValues
  import opened Exceptions
  import opened Schemas
  import Squads

  // ------------------------------------------------------------ MetaBase

  /** A meta schema that properties are written into and read back from. */
  class MetaBase {
    var schema: seq<Entry>

    /** The schema is a dict, and each key holds what `set_prop` can store
        under it. */
    ghost predicate Valid()
      reads this
    {
      DistinctKeys(schema) && AllTyped(schema)
    }

    constructor()
      ensures schema == [] && Valid()
    {
      schema := [];
    }

    /** `set_prop(prop, value, raw=raw)`: stores the value in the form the
        key's suffix chooses and returns what it stored; only `int()` of a
        `U` value can raise, and then nothing is stored. */
    method SetProp(prop: string, value: PyValue, raw: bool) returns (r: Result<Stored, Exc>)
      requires Valid()
      modifies this
      ensures Valid()
      ensures r == Encode(prop, value, raw)
      ensures r.Ok? ==> schema == Put(old(schema), prop, r.value)
      ensures r.Ok? ==> forall j :: Lookup(schema, j) == if j == prop then Some(r.value) else Lookup(old(schema), j)
      ensures r.Err? ==> schema == old(schema)
    {
      r := Encode(prop, value, raw);
      if r.Ok? {
        PutShape(schema, prop, r.value);
        forall j ensures Lookup(Put(schema, prop, r.value), j) == if j == prop then Some(r.value) else Lookup(schema, j) {
          PutLookup(schema, prop, r.value, j);
        }
        schema := Put(schema, prop, r.value);
      }
    }

    /** `get_prop(prop)`: a `b` key reads false exactly when it is missing
        or holds "false" in any case; a missing key reads as the empty value
        of its kind; only decoding received text can fail. `loads` decodes
        JSON text received from the service. */
    function GetProp(prop: string, loads: string -> Option<PyValue>): (r: Result<PyValue, Exc>)
      reads this
      requires Valid()
      ensures Suffix(prop) == "b" ==>
        r == Ok(PyBool(!(!HasKey(schema, prop) ||
                         (Lookup(schema, prop).value.Text? && Lower(Lookup(schema, prop).value.s) == "false"))))
      ensures !HasKey(schema, prop) ==>
        r == Ok(if Suffix(prop) == "b" then PyBool(false)
                else if Suffix(prop) == "j" then PyDict([])
                else if Suffix(prop) == "U" then PyInt(0)
                else PyStr(""))
      ensures r.Err? ==> HasKey(schema, prop) && Lookup(schema, prop).value.Text? &&
                         (Suffix(prop) == "j" || Suffix(prop) == "U")
    {
      Decode(prop, Lookup(schema, prop), loads)
    }

    /** `get_prop(prop, raw=True)`. */
    function GetRaw(prop: string): Option<Stored>
      reads this
    {
      Lookup(schema, prop)
    }

    /** `delete_prop(prop)`: removes the key if present and returns it. */
    method DeleteProp(prop: string) returns (r: string)
      requires Valid()
      modifies this
      ensures Valid()
      ensures r == prop
      ensures schema == Delete(old(schema), prop)
      ensures forall j :: Lookup(schema, j) == if j == prop then None else Lookup(old(schema), j)
    {
      DeleteShape(schema, prop);
      forall j ensures Lookup(Delete(schema, prop), j) == if j == prop then None else Lookup(schema, j) {
        DeleteLookup(schema, prop, j);
      }
      schema := Delete(schema, prop);
      r := prop;
    }

    /** `update(schema, raw=raw)`: `set_prop` for each item in turn; `None`
        changes nothing, and an item that raises stops the update with the
        earlier items written. */
    method Update(items: Option<seq<(string, PyValue)>>, raw: bool) returns (e: Option<Exc>)
      requires Valid()
      modifies this
      ensures Valid()
      ensures items.None? ==> schema == old(schema) && e.None?
      ensures items.Some? ==> (schema, e) == SetAll(old(schema), items.value, raw)
    {
      e := None;
      if items.None? {
        return;
      }
      var kvs := items.value;
      for i := 0 to |kvs|
        invariant Valid()
        invariant (schema, None) == SetAll(old(schema), kvs[..i], raw)
      {
        SetAllNext(old(schema), kvs, raw, i, schema);
        var r := SetProp(kvs[i].0, kvs[i].1, raw);
        if r.Err? {
          e := Some(r.error);
          return;
        }
      }
      assert kvs[..|kvs|] == kvs;
    }

    /** `remove(keys)`: deletes every listed key, ignoring missing ones; the
        other keys keep their values and their order. */
    method Remove(keys: seq<string>)
      requires Valid()
      modifies this
      ensures Valid()
      ensures schema == DeleteAll(old(schema), keys)
      ensures forall j :: Lookup(schema, j) == if j in keys then None else Lookup(old(schema), j)
    {
      for i := 0 to |keys|
        invariant Valid()
        invariant schema == DeleteAll(old(schema), keys[..i])
      {
        assert keys[..i + 1][..i] == keys[..i];
        DeleteShape(schema, keys[i]);
        schema := Delete(schema, keys[i]);
      }
      assert keys[..|keys|] == keys;
      forall j ensures Lookup(schema, j) == if j in keys then None else Lookup(old(schema), j) {
        DeleteAllLookup(old(schema), keys, j);
      }
    }

    /** `get_schema(max)`: the first items of the schema in insertion order,
        as Python slices `[:max]`. */
    function GetSchema(max: Option<int>): (r: seq<Entry>)
      reads this
      ensures r <= schema
      ensures |r| == SliceBound(|schema|, max)
      ensures max.None? ==> r == schema
    {
      schema[..SliceBound(|schema|, max)]
    }
  }

  /** What `set_prop` stores a `get_prop` reads back: the value itself for a
      `j` key, `int(value)` for a `U` key, `str(value)` for a plain key. */
  lemma SetPropThenGetProp(m: MetaBase, prop: string, value: PyValue, loads: string -> Option<PyValue>)
    requires m.Valid() && Encode(prop, value, false).Ok?
    requires Lookup(m.schema, prop) == Some(Encode(prop, value, false).value)
    ensures Suffix(prop) == "j" ==> m.GetProp(prop, loads) == Ok(value)
    ensures Suffix(prop) == "U" ==> m.GetProp(prop, loads) == Ok(PyInt(IntOf(value).value))
    ensures Suffix(prop) == "b" ==> m.GetProp(prop, loads) == Ok(PyBool(Lower(Str(value)) != "false"))
    ensures Suffix(prop) != "j" && Suffix(prop) != "U" && Suffix(prop) != "b" ==>
            m.GetProp(prop, loads) == Ok(PyStr(Str(value)))
  {
    SetThenGet(prop, value, loads);
  }

  // ------------------------------------------------------ meta partials

  /** A value passed to the configuration: a plain value, or a member of one
      of the library's enumerations (its class name and its `.value`). */
  datatype Arg = Plain(v: PyValue) | Member(enumClass: string, value: PyValue)

  /** A `functools.partial` of a meta-setting function: the function's
      qualified name, whether it is a coroutine function, and the arguments
      the partial binds. */
  datatype Partial = Partial(qualname: string, isCoroutine: bool, args: seq<Arg>)

  function NamesOf(ps: seq<Partial>): (r: seq<string>)
    ensures |r| == |ps|
    ensures forall i :: 0 <= i < |ps| ==> r[i] == ps[i].qualname
  {
    seq(|ps|, i requires 0 <= i < |ps| => ps[i].qualname)
  }

  predicate DistinctNames(ps: seq<Partial>) {
    forall i, j :: 0 <= i < j < |ps| ==> ps[i].qualname != ps[j].qualname
  }

  /** `xs[j]` is the first partial with its qualified name. */
  predicate FirstOf(xs: seq<Partial>, j: int)
    requires 0 <= j < |xs|
  {
    forall i :: 0 <= i < j ==> xs[i].qualname != xs[j].qualname
  }

  /** `xs[k]` is the last partial with its qualified name. */
  predicate LastOf(xs: seq<Partial>, k: int)
    requires 0 <= k < |xs|
  {
    forall i :: k < i < |xs| ==> xs[i].qualname != xs[k].qualname
  }

  /** The list the `names`/`results` loop builds: each partial whose
      qualified name has not been seen before, in order. */
  function Dedup(xs: seq<Partial>): (r: seq<Partial>)
    ensures |r| <= |xs|
  {
    if xs == [] then []
    else
      var d := Dedup(xs[..|xs| - 1]);
      var x := xs[|xs| - 1];
      if x.qualname in NamesOf(d) then d else d + [x]
  }

  /** The de-duplicated list loses no qualified name. */
  lemma {:induction false} DedupNames(xs: seq<Partial>)
    ensures forall q :: q in NamesOf(Dedup(xs)) <==> q in NamesOf(xs)
  {
    if xs != [] {
      var n := |xs| - 1;
      var front := xs[..n];
      var x := xs[n];
      var d := Dedup(front);
      DedupNames(front);
      assert forall i :: 0 <= i < n ==> front[i] == xs[i];
      assert NamesOf(xs) == NamesOf(front) + [x.qualname];
      if x.qualname !in NamesOf(d) {
        assert NamesOf(d + [x]) == NamesOf(d) + [x.qualname];
      }
    }
  }

  /** The de-duplicated list has one partial per qualified name. */
  lemma {:induction false} DedupDistinct(xs: seq<Partial>)
    ensures DistinctNames(Dedup(xs))
  {
    if xs != [] {
      var n := |xs| - 1;
      var x := xs[n];
      var d := Dedup(xs[..n]);
      DedupDistinct(xs[..n]);
      if x.qualname !in NamesOf(d) {
        var r := d + [x];
        forall a, b | 0 <= a < b < |r| ensures r[a].qualname != r[b].qualname {
          if b == |d| {
            assert NamesOf(d)[a] == r[a].qualname;
          }
        }
      }
    }
  }

  /** Every partial the de-duplicated list keeps is the first of its name. */
  lemma {:induction false} DedupSound(xs: seq<Partial>, p: Partial)
    requires p in Dedup(xs)
    ensures exists j :: 0 <= j < |xs| && FirstOf(xs, j) && xs[j] == p
  {
    var n := |xs| - 1;
    var front := xs[..n];
    var x := xs[n];
    var d := Dedup(front);
    assert forall i :: 0 <= i < n ==> front[i] == xs[i];
    if p in d {
      DedupSound(front, p);
      var j :| 0 <= j < n && FirstOf(front, j) && front[j] == p;
      assert FirstOf(xs, j);
    } else {
      assert p == x && x.qualname !in NamesOf(d);
      DedupNames(front);
      forall i | 0 <= i < n ensures xs[i].qualname != x.qualname {
        assert NamesOf(front)[i] == xs[i].qualname;
      }
      assert FirstOf(xs, n);
    }
  }

  /** The first partial of each name is kept. */
  lemma {:induction false} DedupComplete(xs: seq<Partial>, j: nat)
    requires j < |xs| && FirstOf(xs, j)
    ensures xs[j] in Dedup(xs)
  {
    var n := |xs| - 1;
    var front := xs[..n];
    var x := xs[n];
    var d := Dedup(front);
    assert forall i :: 0 <= i < n ==> front[i] == xs[i];
    if j < n {
      assert FirstOf(front, j);
      DedupComplete(front, j);
    } else {
      DedupNames(front);
      assert x.qualname !in NamesOf(front);
      assert Dedup(xs) == d + [x];
    }
  }

  lemma {:induction false} ReversedAppend(a: seq<Partial>, b: seq<Partial>)
    ensures Reversed(a + b) == Reversed(b) + Reversed(a)
  {
    assert |Reversed(a + b)| == |Reversed(b) + Reversed(a)|;
    forall i | 0 <= i < |a| + |b| ensures Reversed(a + b)[i] == (Reversed(b) + Reversed(a))[i] {
      if i < |b| {
        assert (a + b)[|a| + |b| - 1 - i] == b[|b| - 1 - i];
      } else {
        assert (a + b)[|a| + |b| - 1 - i] == a[|a| - 1 - (i - |b|)];
      }
    }
  }

  /** The first of a name in the reversed list is the last of it in the
      list. */
  lemma {:induction false} FirstOfReversed(xs: seq<Partial>, j: nat)
    requires j < |xs|
    ensures Reversed(xs)[j] == xs[|xs| - 1 - j]
    ensures FirstOf(Reversed(xs), j) <==> LastOf(xs, |xs| - 1 - j)
  {
    var rs := Reversed(xs);
    var n := |xs|;
    if FirstOf(rs, j) {
      forall i | n - 1 - j < i < n ensures xs[i].qualname != xs[n - 1 - j].qualname {
        assert rs[n - 1 - i] == xs[i];
      }
    }
    if LastOf(xs, n - 1 - j) {
      forall i | 0 <= i < j ensures rs[i].qualname != rs[j].qualname {
        assert rs[i] == xs[n - 1 - i];
      }
    }
  }

  lemma {:induction false} DedupReversedSound(xs: seq<Partial>, p: Partial) returns (k: nat)
    requires p in Dedup(Reversed(xs))
    ensures k < |xs| && LastOf(xs, k) && xs[k] == p
  {
    DedupSound(Reversed(xs), p);
    var j :| 0 <= j < |xs| && FirstOf(Reversed(xs), j) && Reversed(xs)[j] == p;
    FirstOfReversed(xs, j);
    k := |xs| - 1 - j;
  }

  lemma {:induction false} DedupReversedComplete(xs: seq<Partial>, k: nat)
    requires k < |xs| && LastOf(xs, k)
    ensures xs[k] in Dedup(Reversed(xs))
  {
    FirstOfReversed(xs, |xs| - 1 - k);
    DedupComplete(Reversed(xs), |xs| - 1 - k);
  }

  /** Keeping the first of each name in the reversed list keeps exactly the
      last of each name in the list, one per name. */
  lemma {:induction false} DedupReversed(xs: seq<Partial>)
    ensures DistinctNames(Dedup(Reversed(xs)))
    ensures forall k :: 0 <= k < |xs| && LastOf(xs, k) ==> xs[k] in Dedup(Reversed(xs))
    ensures forall p :: p in Dedup(Reversed(xs)) ==> exists k :: 0 <= k < |xs| && LastOf(xs, k) && xs[k] == p
  {
    DedupDistinct(Reversed(xs));
    forall k | 0 <= k < |xs| && LastOf(xs, k) ensures xs[k] in Dedup(Reversed(xs)) {
      DedupReversedComplete(xs, k);
    }
    forall p | p in Dedup(Reversed(xs)) ensures exists k :: 0 <= k < |xs| && LastOf(xs, k) && xs[k] == p {
      var k := DedupReversedSound(xs, p);
    }
  }

  /** `update_meta(new)` keeps one partial per qualified name, and for a
      name among the new partials it keeps the last new partial with it. */
  lemma {:induction false} UpdateMetaKeepsNew(olds: seq<Partial>, news: seq<Partial>)
    ensures DistinctNames(Dedup(Reversed(news) + Reversed(olds)))
    ensures forall k :: 0 <= k < |news| && LastOf(news, k) ==> news[k] in Dedup(Reversed(news) + Reversed(olds))
  {
    var all := olds + news;
    ReversedAppend(olds, news);
    DedupDistinct(Reversed(all));
    var m := |olds|;
    forall k | 0 <= k < |news| && LastOf(news, k) ensures news[k] in Dedup(Reversed(all)) {
      assert all[m + k] == news[k];
      assert LastOf(all, m + k);
      DedupReversedComplete(all, m + k);
    }
  }

  /** For a name that none of the new partials has, `update_meta(new)` keeps
      the last existing partial with it. */
  lemma {:induction false} UpdateMetaKeepsOld(olds: seq<Partial>, news: seq<Partial>, k: nat)
    requires k < |olds| && LastOf(olds, k) && olds[k].qualname !in NamesOf(news)
    ensures olds[k] in Dedup(Reversed(news) + Reversed(olds))
  {
    var all := olds + news;
    var m := |olds|;
    ReversedAppend(olds, news);
    assert all[k] == olds[k];
    forall i | k < i < |all| ensures all[i].qualname != all[k].qualname {
      if i >= m {
        assert all[i] == news[i - m];
        assert NamesOf(news)[i - m] == news[i - m].qualname;
      }
    }
    DedupReversedComplete(all, k);
  }

  /** The last of its name in `olds + news` that lies in `olds` has a name
      no new partial carries. */
  lemma LastAmongOlds(olds: seq<Partial>, news: seq<Partial>, k: nat)
    requires k < |olds| && LastOf(olds + news, k)
    ensures (olds + news)[k] == olds[k]
    ensures olds[k].qualname !in NamesOf(news)
  {
    var all := olds + news;
    forall i | 0 <= i < |news| ensures news[i].qualname != olds[k].qualname {
      assert all[|olds| + i] == news[i];
    }
  }

  /** Every partial `update_meta(new)` keeps was an existing or a new one,
      and one whose name is among the new partials is a new one. */
  lemma {:induction false} UpdateMetaOrigin(olds: seq<Partial>, news: seq<Partial>, p: Partial)
    requires p in Dedup(Reversed(news) + Reversed(olds))
    ensures p in olds || p in news
    ensures p.qualname in NamesOf(news) ==> p in news
  {
    var all := olds + news;
    ReversedAppend(olds, news);
    var k := DedupReversedSound(all, p);
    if k < |olds| {
      LastAmongOlds(olds, news, k);
    } else {
      assert all[k] == news[k - |olds|];
    }
  }

  predicate AllCoroutines(ps: seq<Partial>) {
    forall i :: 0 <= i < |ps| ==> ps[i].isCoroutine
  }

  lemma {:induction false} ReversedAllCoroutines(xs: seq<Partial>)
    ensures AllCoroutines(Reversed(xs)) <==> AllCoroutines(xs)
  {
    if !AllCoroutines(xs) {
      var i :| 0 <= i < |xs| && !xs[i].isCoroutine;
      assert Reversed(xs)[|xs| - 1 - i] == xs[i];
    }
  }

  lemma {:induction false} MergedAllCoroutines(olds: seq<Partial>, news: seq<Partial>)
    ensures AllCoroutines(Reversed(news) + Reversed(olds)) <==> AllCoroutines(olds + news)
  {
    ReversedAppend(olds, news);
    ReversedAllCoroutines(olds + news);
  }

  lemma NamesOfSnoc(ps: seq<Partial>, p: Partial)
    ensures NamesOf(ps + [p]) == NamesOf(ps) + [p.qualname]
  {
  }

  /** The `names`/`results` loop of `update_meta`: keeps each partial whose
      qualified name is not yet among the kept ones, and stops at the first
      partial that is not of a coroutine function. */
  method DedupCoroutines(xs: seq<Partial>) returns (results: seq<Partial>, ok: bool)
    ensures ok <==> AllCoroutines(xs)
    ensures ok ==> results == Dedup(xs)
  {
    var names: seq<string> := [];
    results := [];
    for i := 0 to |xs|
      invariant results == Dedup(xs[..i])
      invariant names == NamesOf(results)
      invariant AllCoroutines(xs[..i])
    {
      var elem := xs[i];
      assert xs[..i + 1][..i] == xs[..i];
      if elem.qualname !in names {
        NamesOfSnoc(results, elem);
        names := names + [elem.qualname];
        results := results + [elem];
      }
      if !elem.isCoroutine {
        return results, false;
      }
    }
    assert xs[..|xs|] == xs;
    return results, true;
  }

  /** `DefaultPartyMemberConfig`: the member settings the client applies
      when it joins a party, and the meta partials it replays. */
  class DefaultPartyMemberConfig {
    var yieldLeadership: bool
    var offlineTtl: int
    var meta: seq<Partial>

    /** The keyword arguments default to not yielding leadership, an
        offline time-to-live of 30 and no meta. */
    constructor(yieldLeadership: Option<bool>, offlineTtl: Option<int>, meta: Option<seq<Partial>>)
      ensures this.yieldLeadership == yieldLeadership.GetOr(false)
      ensures this.offlineTtl == offlineTtl.GetOr(30)
      ensures this.meta == meta.GetOr([])
    {
      this.yieldLeadership := yieldLeadership.GetOr(false);
      this.offlineTtl := offlineTtl.GetOr(30);
      this.meta := meta.GetOr([]);
    }

    /** `update_meta(partials)`: merges the new partials into the kept ones,
        one per qualified name with later ones winning (see
        `UpdateMetaKeepsNew`, `UpdateMetaKeepsOld` and `UpdateMetaOrigin`); any partial that is not of a coroutine function
        raises `TypeError` and leaves `meta` as it was. */
    method UpdateMeta(partials: seq<Partial>) returns (e: Option<Exc>)
      modifies this
      ensures yieldLeadership == old(yieldLeadership) && offlineTtl == old(offlineTtl)
      ensures e.Some? <==> !AllCoroutines(old(meta) + partials)
      ensures e.Some? ==> e == Some(TypeError("meta must be list containing partials of coroutines"))
      ensures e.Some? ==> meta == old(meta)
      ensures e.None? ==> meta == Dedup(Reversed(partials) + Reversed(old(meta)))
    {
      MergedAllCoroutines(meta, partials);
      var results, ok := DedupCoroutines(Reversed(partials) + Reversed(meta));
      if !ok {
        return Some(TypeError("meta must be list containing partials of coroutines"));
      }
      meta := results;
      return None;
    }
  }

  // ------------------------------------------------- DefaultPartyConfig

  /** The `.value`s of the enumeration members the party configuration
      defaults to or switches between. */
  datatype PartyEnumValues = PartyEnumValues(
    publicPrivacy: PyValue,
    openJoinability: PyValue, inviteAndFormerJoinability: PyValue,
    allDiscoverability: PyValue, invitedOnlyDiscoverability: PyValue)

  /** The settings `update` starts from. */
  function PartyDefaults(en: PartyEnumValues): map<string, PyValue> {
    map["privacy" := en.publicPrivacy,
        "joinability" := en.openJoinability,
        "discoverability" := en.allDiscoverability,
        "max_size" := PyInt(16),
        "invite_ttl_seconds" := PyInt(14400),
        "chat_enabled" := PyBool(true),
        "join_confirmation" := PyBool(false),
        "sub_type" := PyStr("default"),
        "type" := PyStr("DEFAULT")]
  }

  /** What is stored for a value: an enumeration member is replaced by its `.value`. */
  function Unwrap(a: Arg): PyValue {
    match a
    case Plain(v) => v
    case Member(_, v) => v
  }

  /** `{**default, **self._config, **config, **to_update}`: the given keys
      hold their unwrapped values, the other configured keys keep theirs,
      and the defaults fill in the rest. */
  function MergedConfig(cfg: map<string, PyValue>, given: map<string, Arg>, en: PartyEnumValues): (r: map<string, PyValue>)
    ensures forall k :: k in r <==> k in PartyDefaults(en) || k in cfg || k in given
    ensures forall k :: k in given ==> r[k] == Unwrap(given[k])
    ensures forall k :: k !in given && k in cfg ==> r[k] == cfg[k]
    ensures forall k :: k !in given && k !in cfg && k in PartyDefaults(en) ==> r[k] == PartyDefaults(en)[k]
  {
    PartyDefaults(en) + cfg + map k | k in given :: Unwrap(given[k])
  }

  predicate IsPrivacyMember(a: Arg) {
    a.Member? && a.enumClass == "PartyPrivacy"
  }

  /** The first argument that is a `PartyPrivacy` member, if any. */
  function PrivacyArg(args: seq<Arg>): (r: Option<Arg>)
    ensures r.None? <==> forall i :: 0 <= i < |args| ==> !IsPrivacyMember(args[i])
    ensures r.Some? ==> r.value in args && IsPrivacyMember(r.value)
  {
    if args == [] then None
    else if IsPrivacyMember(args[0]) then Some(args[0])
    else PrivacyArg(args[1..])
  }

  /** `arg.value['partyType'] == 'Private'`. */
  predicate IsPrivateSetting(v: PyValue) {
    v.PyDict? && DictGet(v.entries, "partyType") == Some(PyStr("Private"))
  }

  /** The keys `_update_privacy` passes to `update` for a privacy member. */
  function PrivacyPatch(arg: Arg, en: PartyEnumValues): map<string, Arg> {
    var isPrivate := IsPrivateSetting(Unwrap(arg));
    map["privacy" := arg,
        "discoverability" := Plain(if isPrivate then en.invitedOnlyDiscoverability else en.allDiscoverability),
        "joinability" := Plain(if isPrivate then en.inviteAndFormerJoinability else en.openJoinability)]
  }

  /** The configuration after `_update_privacy(args)`. */
  function PrivacyUpdated(cfg: map<string, PyValue>, args: seq<Arg>, en: PartyEnumValues): map<string, PyValue> {
    match PrivacyArg(args)
    case None => cfg
    case Some(a) => MergedConfig(cfg, PrivacyPatch(a, en), en)
  }

  /** A privacy member among the arguments sets the privacy to its value and
      the discoverability and joinability to the invite-only pair exactly when
      the party type is private, to the open pair otherwise; the other keys
      keep their setting or fall back to the default. Without one nothing
      changes. */
  lemma PrivacyUpdatedSettings(cfg: map<string, PyValue>, args: seq<Arg>, en: PartyEnumValues)
    ensures PrivacyArg(args).None? ==> PrivacyUpdated(cfg, args, en) == cfg
    ensures PrivacyArg(args).Some? ==>
      var v := PrivacyArg(args).value.value;
      var r := PrivacyUpdated(cfg, args, en);
      "privacy" in r && r["privacy"] == v &&
      "discoverability" in r && "joinability" in r &&
      (IsPrivateSetting(v) ==> r["discoverability"] == en.invitedOnlyDiscoverability &&
                               r["joinability"] == en.inviteAndFormerJoinability) &&
      (!IsPrivateSetting(v) ==> r["discoverability"] == en.allDiscoverability &&
                                r["joinability"] == en.openJoinability)
    ensures forall k :: k != "privacy" && k != "discoverability" && k != "joinability" && k in cfg ==>
      k in PrivacyUpdated(cfg, args, en) && PrivacyUpdated(cfg, args, en)[k] == cfg[k]
  {
    if PrivacyArg(args).Some? {
      var a := PrivacyArg(args).value;
      var patch := PrivacyPatch(a, en);
      assert patch.Keys == {"privacy", "discoverability", "joinability"};
      assert PrivacyUpdated(cfg, args, en) == MergedConfig(cfg, patch, en);
    }
  }

  const SetPrivacyName := "ClientParty.set_privacy"

  /** The first partial of `ClientParty.set_privacy`, if any. */
  function FirstPrivacy(xs: seq<Partial>): (r: Option<Partial>)
    ensures r.None? <==> SetPrivacyName !in NamesOf(xs)
  {
    if xs == [] then None
    else
      var f := FirstPrivacy(xs[..|xs| - 1]);
      assert NamesOf(xs) == NamesOf(xs[..|xs| - 1]) + [xs[|xs| - 1].qualname];
      if f.Some? then f
      else if xs[|xs| - 1].qualname == SetPrivacyName then Some(xs[|xs| - 1])
      else None
  }

  /** The partial `FirstPrivacy` picks is the first with its name. */
  lemma {:induction false} FirstPrivacyIndex(xs: seq<Partial>) returns (j: nat)
    requires FirstPrivacy(xs).Some?
    ensures j < |xs| && FirstOf(xs, j) && xs[j] == FirstPrivacy(xs).value
    ensures xs[j].qualname == SetPrivacyName
  {
    var n := |xs| - 1;
    var front := xs[..n];
    if FirstPrivacy(front).Some? {
      j := FirstPrivacyIndex(front);
      assert forall i :: 0 <= i <= j ==> front[i] == xs[i];
    } else {
      j := n;
      forall i | 0 <= i < n ensures xs[i].qualname != xs[n].qualname {
        assert NamesOf(front)[i] == xs[i].qualname;
      }
    }
  }

  /** The `set_privacy` partial whose arguments `update_meta` applies is the
      one it keeps, the only kept partial of that name. */
  lemma FirstPrivacyKept(xs: seq<Partial>)
    requires FirstPrivacy(xs).Some?
    ensures FirstPrivacy(xs).value in Dedup(xs)
    ensures forall p :: p in Dedup(xs) && p.qualname == SetPrivacyName ==> p == FirstPrivacy(xs).value
  {
    var j := FirstPrivacyIndex(xs);
    DedupComplete(xs, j);
    DedupDistinct(xs);
  }

  /** The partials the `update_meta` loop visits: all of them, or those up to
      and including the first that is not of a coroutine function, where it
      raises. */
  function Reached(xs: seq<Partial>): (r: seq<Partial>)
    ensures |r| <= |xs| && r == xs[..|r|]
  {
    if xs == [] then []
    else if !xs[0].isCoroutine then [xs[0]]
    else [xs[0]] + Reached(xs[1..])
  }

  lemma {:induction false} ReachedAll(xs: seq<Partial>)
    requires AllCoroutines(xs)
    ensures Reached(xs) == xs
  {
    if xs != [] {
      ReachedAll(xs[1..]);
    }
  }

  lemma {:induction false} ReachedStop(xs: seq<Partial>, i: nat)
    requires i < |xs| && AllCoroutines(xs[..i]) && !xs[i].isCoroutine
    ensures Reached(xs) == xs[..i + 1]
  {
    if i > 0 {
      assert xs[1..][..i - 1] == xs[1..i];
      ReachedStop(xs[1..], i - 1);
    }
  }

  /** The first `set_privacy` partial of a longer list is that of the shorter
      one, or the new last partial when the shorter one has none. */
  lemma FirstPrivacySnoc(xs: seq<Partial>, i: nat)
    requires i < |xs|
    ensures FirstPrivacy(xs[..i + 1]) ==
      if FirstPrivacy(xs[..i]).Some? then FirstPrivacy(xs[..i])
      else if xs[i].qualname == SetPrivacyName then Some(xs[i])
      else None
  {
    assert xs[..i + 1][..i] == xs[..i];
  }

  /** The configuration after `_update_privacy` ran for the given partial, if any. */
  function AfterPrivacy(cfg: map<string, PyValue>, p: Option<Partial>, en: PartyEnumValues): map<string, PyValue> {
    if p.Some? then PrivacyUpdated(cfg, p.value.args, en) else cfg
  }

  /** `DefaultPartyConfig`: the party settings and meta partials the client
      applies to each party it creates. */
  class DefaultPartyConfig {
    const enums: PartyEnumValues
    var teamChangeAllowed: bool
    var meta: seq<Partial>
    var config: map<string, PyValue>

    /** `team_change_allowed` defaults to true and `meta` to no partials; the
        remaining keyword arguments go through `update`. */
    constructor(enums: PartyEnumValues, teamChangeAllowed: Option<bool>, meta: Option<seq<Partial>>,
                rest: map<string, Arg>)
      ensures this.enums == enums
      ensures this.teamChangeAllowed == teamChangeAllowed.GetOr(true)
      ensures this.meta == meta.GetOr([])
      ensures config == MergedConfig(map[], rest, enums)
    {
      this.enums := enums;
      this.teamChangeAllowed := teamChangeAllowed.GetOr(true);
      this.meta := meta.GetOr([]);
      config := MergedConfig(map[], rest, enums);
    }

    /** `update(config)`: see `MergedConfig`. */
    method Update(given: map<string, Arg>)
      modifies this
      ensures config == MergedConfig(old(config), given, enums)
      ensures teamChangeAllowed == old(teamChangeAllowed) && meta == old(meta)
    {
      config := MergedConfig(config, given, enums);
    }

    /** `_update_privacy(args)`: the first privacy member among the arguments,
        if any, is written with its discoverability and joinability. */
    method UpdatePrivacy(args: seq<Arg>)
      modifies this
      ensures config == PrivacyUpdated(old(config), args, enums)
      ensures teamChangeAllowed == old(teamChangeAllowed) && meta == old(meta)
    {
      for i := 0 to |args|
        invariant forall j :: 0 <= j < i ==> !IsPrivacyMember(args[j])
        invariant config == old(config)
      {
        var arg := args[i];
        if IsPrivacyMember(arg) {
          assert PrivacyArg(args) == Some(arg) by { PrivacyArgAt(args, i); }
          Update(PrivacyPatch(arg, enums));
          return;
        }
      }
    }

    /** The `names`/`results` loop of `update_meta`: as `DedupCoroutines`,
        and the first `set_privacy` partial it reaches has its arguments
        applied to the settings, even when a later partial then stops the
        loop. */
    method DedupApplyingPrivacy(xs: seq<Partial>) returns (results: seq<Partial>, ok: bool)
      modifies this
      ensures ok <==> AllCoroutines(xs)
      ensures ok ==> results == Dedup(xs)
      ensures config == AfterPrivacy(old(config), FirstPrivacy(Reached(xs)), enums)
      ensures teamChangeAllowed == old(teamChangeAllowed) && meta == old(meta)
    {
      var names: seq<string> := [];
      results := [];
      for i := 0 to |xs|
        invariant results == Dedup(xs[..i])
        invariant names == NamesOf(results)
        invariant AllCoroutines(xs[..i])
        invariant config == AfterPrivacy(old(config), FirstPrivacy(xs[..i]), enums)
        invariant teamChangeAllowed == old(teamChangeAllowed) && meta == old(meta)
      {
        var elem := xs[i];
        PrivacyStep(xs, i, names);
        DedupStep(xs, i);
        if elem.qualname !in names {
          if elem.qualname == SetPrivacyName {
            assert FirstPrivacy(xs[..i]).None?;
            UpdatePrivacy(elem.args);
            assert config == AfterPrivacy(old(config), Some(elem), enums);
          }
          NamesOfSnoc(results, elem);
          names := names + [elem.qualname];
          results := results + [elem];
        }
        if !elem.isCoroutine {
          ReachedStop(xs, i);
          return results, false;
        }
        AllCoroutinesSnoc(xs, i);
      }
      assert xs[..|xs|] == xs;
      ReachedAll(xs);
      return results, true;
    }

    /** `update_meta(partials)`: merges the partials as the member
        configuration does, and applies the arguments of the first
        `set_privacy` partial the loop reaches, which is the one kept (see
        `FirstPrivacyKept`), even when a later partial raises `TypeError`. */
    method UpdateMeta(partials: seq<Partial>) returns (e: Option<Exc>)
      modifies this
      ensures teamChangeAllowed == old(teamChangeAllowed)
      ensures e.Some? <==> !AllCoroutines(old(meta) + partials)
      ensures e.Some? ==> e == Some(TypeError("meta must be list containing partials of coroutines"))
      ensures e.Some? ==> meta == old(meta)
      ensures e.None? ==> meta == Dedup(Reversed(partials) + Reversed(old(meta)))
      ensures config == AfterPrivacy(old(config), FirstPrivacy(Reached(Reversed(partials) + Reversed(old(meta)))), enums)
    {
      MergedAllCoroutines(meta, partials);
      var results, ok := DedupApplyingPrivacy(Reversed(partials) + Reversed(meta));
      if !ok {
        return Some(TypeError("meta must be list containing partials of coroutines"));
      }
      meta := results;
      return None;
    }
  }

  lemma AllCoroutinesSnoc(xs: seq<Partial>, i: nat)
    requires i < |xs| && AllCoroutines(xs[..i]) && xs[i].isCoroutine
    ensures AllCoroutines(xs[..i + 1])
  {
    assert forall j :: 0 <= j < i ==> xs[..i + 1][j] == xs[..i][j];
  }

  lemma DedupStep(xs: seq<Partial>, i: nat)
    requires i < |xs|
    ensures Dedup(xs[..i + 1]) ==
      if xs[i].qualname in NamesOf(Dedup(xs[..i])) then Dedup(xs[..i]) else Dedup(xs[..i]) + [xs[i]]
  {
    assert xs[..i + 1][..i] == xs[..i];
  }

  /** One step of the loop: a partial not yet among the kept names extends
      the kept list, and it changes the first `set_privacy` partial exactly
      when it is one. */
  lemma PrivacyStep(xs: seq<Partial>, i: nat, names: seq<string>)
    requires i < |xs| && names == NamesOf(Dedup(xs[..i]))
    ensures xs[i].qualname !in names ==> xs[i].qualname !in NamesOf(xs[..i])
    ensures FirstPrivacy(xs[..i + 1]) ==
      if xs[i].qualname !in names && xs[i].qualname == SetPrivacyName then Some(xs[i])
      else FirstPrivacy(xs[..i])
  {
    FirstPrivacySnoc(xs, i);
    DedupNames(xs[..i]);
  }

  /** The first privacy member, found at index `i`, is what `PrivacyArg` picks. */
  lemma {:induction false} PrivacyArgAt(args: seq<Arg>, i: nat)
    requires i < |args| && IsPrivacyMember(args[i])
    requires forall j :: 0 <= j < i ==> !IsPrivacyMember(args[j])
    ensures PrivacyArg(args) == Some(args[i])
  {
    if i > 0 {
      PrivacyArgAt(args[1..], i - 1);
    }
  }

  /** The coroutines `_edit` gathers out of those passed to it: one per
      qualified name, the last one passed winning. */
  function Gathered(coros: seq<Partial>): (r: seq<Partial>)
    ensures DistinctNames(r)
    ensures forall k :: 0 <= k < |coros| && LastOf(coros, k) ==> coros[k] in r
    ensures forall p :: p in r ==> exists k :: 0 <= k < |coros| && LastOf(coros, k) && coros[k] == p
  {
    DedupReversed(coros);
    Dedup(Reversed(coros))
  }

  // ------------------------------------------------------------ _edit diff

  lemma HasKeySnoc(kvs: seq<Entry>, i: nat, k: string)
    requires i < |kvs|
    ensures HasKey(kvs[..i + 1], k) <==> HasKey(kvs[..i], k) || kvs[i].0 == k
  {
    if HasKey(kvs[..i + 1], k) {
      var a :| 0 <= a < i + 1 && kvs[..i + 1][a].0 == k;
      if a < i {
        assert kvs[..i][a].0 == k;
      }
    }
    if HasKey(kvs[..i], k) {
      var a :| 0 <= a < i && kvs[..i][a].0 == k;
      assert kvs[..i + 1][a].0 == k;
    }
    if kvs[i].0 == k {
      assert kvs[..i + 1][i].0 == k;
    }
  }

  /** What the `_edit` loop over the schema as it was before the edits
      reports: `updated` maps exactly the keys whose value changed to their
      new value, `deleted` lists exactly the keys that are gone, and a key
      the edits added appears in neither. */
  method SchemaDiff(before: seq<Entry>, after: seq<Entry>) returns (updated: seq<Entry>, deleted: seq<string>)
    requires DistinctKeys(before)
    ensures forall k ::
              Lookup(updated, k) ==
                if Lookup(before, k).Some? && Lookup(after, k).Some? && Lookup(after, k) != Lookup(before, k)
                then Lookup(after, k) else None
    ensures forall k :: k in deleted <==> Lookup(before, k).Some? && Lookup(after, k).None?
    ensures DistinctKeys(updated)
  {
    updated := [];
    deleted := [];
    for i := 0 to |before|
      invariant DistinctKeys(updated)
      invariant forall k ::
                  Lookup(updated, k) ==
                    if HasKey(before[..i], k) && Lookup(after, k).Some? && Lookup(after, k) != Lookup(before, k)
                    then Lookup(after, k) else None
      invariant forall k :: k in deleted <==> HasKey(before[..i], k) && Lookup(after, k).None?
    {
      var (prop, value) := before[i];
      LookupOfEntry(before, i);
      forall k ensures HasKey(before[..i + 1], k) <==> HasKey(before[..i], k) || k == prop {
        HasKeySnoc(before, i, k);
      }
      var newValue := Lookup(after, prop);
      if newValue.None? {
        deleted := deleted + [prop];
      } else if value != newValue.value {
        PutShape(updated, prop, newValue.value);
        forall k ensures Lookup(Put(updated, prop, newValue.value), k) ==
                         if k == prop then newValue else Lookup(updated, k) {
          PutLookup(updated, prop, newValue.value, k);
        }
        updated := Put(updated, prop, newValue.value);
      }
    }
    assert before[..|before|] == before;
  }

  // ------------------------------------------------------ members, party

  /** A member of a party; `role` is "CAPTAIN" for the leader. */
  class PartyMember {
    const id: string
    var role: Option<string>

    constructor(id: string, role: Option<string>)
      ensures this.id == id && this.role == role
    {
      this.id := id;
      this.role := role;
    }

    predicate IsLeader()
      reads this
    {
      role == Some("CAPTAIN")
    }
  }

  /** `leader`: the first member that is a captain, or none. */
  function FirstLeader(ms: seq<PartyMember>): (r: PartyMember?)
    reads set m | m in ms
    ensures r == null <==> forall i :: 0 <= i < |ms| ==> !ms[i].IsLeader()
    ensures r != null ==> exists i :: 0 <= i < |ms| && ms[i] == r && r.IsLeader() &&
                                      forall j :: 0 <= j < i ==> !ms[j].IsLeader()
  {
    if ms == [] then null
    else if ms[0].IsLeader() then ms[0]
    else
      var r := FirstLeader(ms[1..]);
      assert forall i :: 0 < i < |ms| ==> ms[1..][i - 1] == ms[i];
      if r != null then
        var i :| 0 <= i < |ms[1..]| && ms[1..][i] == r && r.IsLeader() &&
                 forall j :: 0 <= j < i ==> !ms[1..][j].IsLeader();
        assert ms[i + 1] == r;
        r
      else r
  }

  /** The error `set_max_size(size)` raises before anything is sent: a
      non-leader is refused first, then a size below the member count, then a
      size outside 1..16. */
  function MaxSizeError(meIsLeader: Option<bool>, memberCount: nat, size: int): (e: Option<Exc>)
    ensures e.None? <==> meIsLeader != Some(false) && memberCount <= size && 1 <= size <= 16
    ensures meIsLeader == Some(false) ==>
      e == Some(Forbidden("You have to be leader for this action to work."))
    ensures meIsLeader != Some(false) && size < memberCount ==>
      e == Some(PartyError("New size is lower than current member count."))
    ensures meIsLeader != Some(false) && memberCount <= size && !(1 <= size <= 16) ==>
      e == Some(PartyError("The new party size must be 1 <= size <= 16."))
  {
    if meIsLeader == Some(false) then Some(Forbidden("You have to be leader for this action to work."))
    else if size < memberCount then Some(PartyError("New size is lower than current member count."))
    else if !(1 <= size <= 16) then Some(PartyError("The new party size must be 1 <= size <= 16."))
    else None
  }

  /** A size the check accepts is a possible party size that fits the
      current members. */
  lemma MaxSizeAccepted(meIsLeader: Option<bool>, memberCount: nat, size: int)
    requires MaxSizeError(meIsLeader, memberCount, size).None?
    ensures memberCount <= size <= 16 && size >= 1
  {
  }

  /** The ids of the members, in order: the keys of `_members`. */
  function MemberIds(ms: seq<PartyMember>): seq<string> {
    seq(|ms|, k requires 0 <= k < |ms| => ms[k].id)
  }

  const SquadKey := "Default:RawSquadAssignments_j"

  /** What `set_squad_assignments` writes under `SquadKey`. */
  function SquadValue(xs: seq<Squads.Assignment>): PyValue {
    PyDict([("RawSquadAssignments", PyList(Squads.ToJson(xs)))])
  }

  /** The party the client is in. `sentConfigs` records the configuration
      each `patch` request carried. */
  class ClientParty {
    var members: seq<PartyMember>
    var me: PartyMember?
    var editLocked: bool
    var configCache: map<string, int>
    var sentConfigs: seq<map<string, int>>
    const meta: MetaBase

    constructor(members: seq<PartyMember>, me: PartyMember?, meta: MetaBase)
      ensures this.members == members && this.me == me && this.meta == meta
      ensures !editLocked && configCache == map[] && sentConfigs == []
    {
      this.members := members;
      this.me := me;
      this.meta := meta;
      editLocked := false;
      configCache := map[];
      sentConfigs := [];
    }

    /** `leader`. */
    function Leader(): PartyMember?
      reads this, set m | m in members
    {
      FirstLeader(members)
    }

    /** `_update_roles(new_leader)`: every member loses its role, then the
        new leader becomes captain, so it is the only captain. */
    method UpdateRoles(newLeader: PartyMember)
      modifies (set m | m in members), newLeader
      ensures newLeader.role == Some("CAPTAIN")
      ensures forall i :: 0 <= i < |members| && members[i] != newLeader ==> members[i].role == None
      ensures forall i :: 0 <= i < |members| ==> (members[i].IsLeader() <==> members[i] == newLeader)
      ensures newLeader in members ==> Leader() == newLeader
    {
      for i := 0 to |members|
        invariant forall j :: 0 <= j < i ==> members[j].role == None
      {
        members[i].role := None;
      }
      newLeader.role := Some("CAPTAIN");
    }

    /** `construct_squad_assignments(new_positions)`, as corrected (see
        `Squads.Squad`), writing the result with `set_squad_assignments`.
        `existing` is the `RawSquadAssignments` list the party meta holds. */
    method ConstructSquadAssignments(newPositions: Squads.Positions, existing: seq<Squads.Assignment>)
      returns (r: (string, Stored))
      requires meta.Valid()
      modifies meta
      ensures meta.Valid()
      ensures r == (SquadKey, Json(SquadValue(Squads.Squad(newPositions, existing, MemberIds(members)))))
      ensures meta.schema == Put(old(meta.schema), r.0, r.1)
    {
      var assignments := Squads.Construct(newPositions, existing, MemberIds(members));
      assert Suffix(SquadKey) == "j";
      var stored := meta.SetProp(SquadKey, SquadValue(assignments), false);
      r := (SquadKey, stored.value);
    }

    /** `set_max_size(size)`: refuses as `MaxSizeError` says without any
        effect; otherwise sends the new size, or adds it to the configuration
        cache while an edit is in progress. A sent patch empties the cache. */
    method SetMaxSize(size: int) returns (e: Option<Exc>)
      modifies this
      ensures e == MaxSizeError(if me == null then None else Some(me.IsLeader()), |members|, size)
      ensures members == old(members) && me == old(me) && editLocked == old(editLocked)
      ensures e.Some? ==> configCache == old(configCache) && sentConfigs == old(sentConfigs)
      ensures e.None? && !editLocked ==>
        sentConfigs == old(sentConfigs) + [map["max_size" := size]] && configCache == map[]
      ensures e.None? && editLocked ==>
        configCache == old(configCache)["max_size" := size] && sentConfigs == old(sentConfigs)
    {
      e := MaxSizeError(if me == null then None else Some(me.IsLeader()), |members|, size);
      if e.Some? {
        return;
      }
      var config := map["max_size" := size];
      if !editLocked {
        sentConfigs := sentConfigs + [config];
        configCache := map[];
      } else {
        configCache := configCache["max_size" := size];
      }
    }
  }
}
