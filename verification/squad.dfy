/** Squad positions: the list of `{memberId, absoluteMemberIdx}` entries a
    party keeps under `Default:RawSquadAssignments_j`, and how
    `construct_squad_assignments` computes a new one from the positions asked
    for, the existing entries and the current members. */
module Squads {
  import opened Wrappers
  import opened PyValues

  /** One entry of `RawSquadAssignments`. */
  datatype Assignment = Assignment(memberId: string, pos: int)

  /** `new_positions`: member id to the position asked for, in the dict's
      insertion order. */
  type Positions = seq<(string, int)>

  function Ids(xs: seq<Assignment>): seq<string> {
    seq(|xs|, k requires 0 <= k < |xs| => xs[k].memberId)
  }

  /** The ids of `new_positions`. */
  function Keys(np: Positions): seq<string> {
    seq(|np|, k requires 0 <= k < |np| => np[k].0)
  }

  /** `taken_pos`: the positions asked for. */
  function Taken(np: Positions): set<int> {
    set k | 0 <= k < |np| :: np[k].1
  }

  predicate Distinct<T(==)>(s: seq<T>) {
    forall a, b :: 0 <= a < b < |s| ==> s[a] != s[b]
  }

  predicate DistinctIds(xs: seq<Assignment>) {
    forall a, b :: 0 <= a < b < |xs| ==> xs[a].memberId != xs[b].memberId
  }

  predicate DistinctPositions(xs: seq<Assignment>) {
    forall a, b :: 0 <= a < b < |xs| ==> xs[a].pos != xs[b].pos
  }

  predicate Sorted(xs: seq<Assignment>) {
    forall a, b :: 0 <= a < b < |xs| ==> xs[a].pos <= xs[b].pos
  }

  // ------------------------------------------------------ the counter

  /** A position above every one asked for. */
  function Bound(np: Positions): (b: int)
    ensures forall k :: 0 <= k < |np| ==> np[k].1 < b
  {
    if np == [] then 0
    else
      var b := Bound(np[1..]);
      assert forall k :: 1 <= k < |np| ==> np[k] == np[1..][k - 1];
      if np[0].1 < b then b else np[0].1 + 1
  }

  /** The `while i in taken_pos: i += 1` loop: the first position at or
      after `i` that is not asked for. */
  function FreeFrom(i: int, np: Positions): (r: int)
    ensures i <= r && r !in Taken(np)
    ensures forall j :: i <= j < r ==> j in Taken(np)
    decreases Bound(np) - i
  {
    if i in Taken(np) then FreeFrom(i + 1, np) else i
  }

  // ------------------------------------------------------ the pieces

  /** The entries for `new_positions`, as asked. */
  function Explicit(np: Positions): seq<Assignment> {
    seq(|np|, k requires 0 <= k < |np| => Assignment(np[k].0, np[k].1))
  }

  /** The loop over the existing entries: the entry of each current member
      that is not given a new position is renumbered with the counter, which
      starts at `i` and, after each use, moves on to the next position that
      is not taken. Entries of other ids are dropped. */
  function Renumbered(existing: seq<Assignment>, members: seq<string>, np: Positions, i: int): seq<Assignment>
    decreases |existing|
  {
    if existing == [] then []
    else
      var id := existing[0].memberId;
      if id !in members || id in Keys(np) then Renumbered(existing[1..], members, np, i)
      else [Assignment(id, i)] + Renumbered(existing[1..], members, np, FreeFrom(i + 1, np))
  }

  /** `to_assign`: the members, in order, whose id is not excluded. */
  function ToAssign(members: seq<string>, excluded: seq<string>): seq<string> {
    if members == [] then []
    else
      var rest := ToAssign(members[..|members| - 1], excluded);
      var m := members[|members| - 1];
      if m in excluded then rest else rest + [m]
  }

  /** Inserts `x` after every entry whose position is not above its own. */
  function Insert(s: seq<Assignment>, x: Assignment): (r: seq<Assignment>)
    ensures |r| == |s| + 1
  {
    if s == [] then [x]
    else if x.pos < s[0].pos then [x] + s
    else [s[0]] + Insert(s[1..], x)
  }

  /** `sorted(new, key=lambda o: o['absoluteMemberIdx'])`, a stable sort. */
  function SortByPos(xs: seq<Assignment>): (r: seq<Assignment>)
    ensures |r| == |xs|
  {
    if xs == [] then [] else Insert(SortByPos(xs[..|xs| - 1]), xs[|xs| - 1])
  }

  /** `last_pos`: one past the position of the last sorted entry, or 0. */
  function LastPos(s: seq<Assignment>): int {
    if s == [] then 0 else s[|s| - 1].pos + 1
  }

  /** `enumerate(to_assign, last_pos)`. */
  function Consecutive(ids: seq<string>, start: int): seq<Assignment> {
    seq(|ids|, k requires 0 <= k < |ids| => Assignment(ids[k], start + k))
  }

  /** The assignments built from the explicit entries, the existing entries
      renumbered from `start`, and the members not `excluded` placed after
      them. */
  function Arranged(np: Positions, existing: seq<Assignment>, members: seq<string>,
                    start: int, excluded: seq<string>): seq<Assignment>
  {
    var sorted := SortByPos(Explicit(np) + Renumbered(existing, members, np, start));
    sorted + Consecutive(ToAssign(members, excluded), LastPos(sorted))
  }

  /** `construct_squad_assignments` as written: the counter starts at 0
      whether or not 0 is asked for, and `to_assign` leaves out only the
      members with an existing entry. */
  function SquadAsWritten(np: Positions, existing: seq<Assignment>, members: seq<string>): seq<Assignment> {
    Arranged(np, existing, members, 0, Ids(existing))
  }

  /** `construct_squad_assignments` as intended: the counter starts at the
      first position not asked for, and a member given a position explicitly
      is not placed a second time. */
  function Squad(np: Positions, existing: seq<Assignment>, members: seq<string>): seq<Assignment> {
    Arranged(np, existing, members, FreeFrom(0, np), Ids(existing) + Keys(np))
  }

  /** The `while i in taken_pos: i += 1` loop itself. */
  method SkipTaken(start: int, np: Positions, taken: set<int>) returns (i: int)
    requires taken == Taken(np)
    ensures i == FreeFrom(start, np)
  {
    i := start;
    while i in taken
      invariant FreeFrom(i, np) == FreeFrom(start, np)
      decreases Bound(np) - i
    {
      i := i + 1;
    }
  }

  /** The `to_assign` loop: the members, in order, with neither an existing
      entry nor a position asked for. */
  method CollectToAssign(members: seq<string>, existingIds: seq<string>, newIds: seq<string>)
    returns (toAssign: seq<string>)
    ensures toAssign == ToAssign(members, existingIds + newIds)
  {
    toAssign := [];
    for k := 0 to |members|
      invariant toAssign == ToAssign(members[..k], existingIds + newIds)
    {
      assert members[..k + 1][..k] == members[..k];
      var id := members[k];
      assert members[..k + 1][k] == id;
      if id !in existingIds && id !in newIds {
        toAssign := toAssign + [id];
      }
    }
    assert members[..|members|] == members;
  }

  /** The `enumerate(to_assign, last_pos)` loop: the members appended one
      position apart after the last sorted entry. */
  method PlaceAfter(sorted: seq<Assignment>, toAssign: seq<string>) returns (assignments: seq<Assignment>)
    ensures assignments == sorted + Consecutive(toAssign, LastPos(sorted))
  {
    assignments := sorted;
    var lastPos := if |assignments| > 0 then assignments[|assignments| - 1].pos + 1 else 0;
    for k := 0 to |toAssign|
      invariant assignments == sorted + Consecutive(toAssign[..k], lastPos)
    {
      assert toAssign[..k + 1] == toAssign[..k] + [toAssign[k]];
      assignments := assignments + [Assignment(toAssign[k], lastPos + k)];
    }
    assert toAssign[..|toAssign|] == toAssign;
  }

  /** The loops of `construct_squad_assignments`, as corrected: `to_assign`
      leaves out the members given a position as well, and the counter is
      moved past the positions asked for before its first use. */
  method Construct(newPositions: Positions, existing: seq<Assignment>, members: seq<string>)
    returns (assignments: seq<Assignment>)
    ensures assignments == Squad(newPositions, existing, members)
  {
    var existingIds := Ids(existing);
    var taken := Taken(newPositions);
    var newIds := Keys(newPositions);
    var toAssign := CollectToAssign(members, existingIds, newIds);
    var placed: seq<Assignment> := [];
    for k := 0 to |newPositions|
      invariant placed == Explicit(newPositions[..k])
    {
      placed := placed + [Assignment(newPositions[k].0, newPositions[k].1)];
    }
    assert newPositions[..|newPositions|] == newPositions;
    var i := SkipTaken(0, newPositions, taken);
    ghost var start := i;
    for k := 0 to |existing|
      invariant placed + Renumbered(existing[k..], members, newPositions, i)
                == Explicit(newPositions) + Renumbered(existing, members, newPositions, start)
    {
      assert existing[k..][1..] == existing[k + 1..];
      var userId := existing[k].memberId;
      if userId !in members || userId in newIds {
        continue;
      }
      placed := placed + [Assignment(userId, i)];
      i := SkipTaken(i + 1, newPositions, taken);
    }
    assert existing[|existing|..] == [];
    assert placed == Explicit(newPositions) + Renumbered(existing, members, newPositions, FreeFrom(0, newPositions));
    assignments := PlaceAfter(SortByPos(placed), toAssign);
  }

  // ------------------------------------------------------ JSON form

  /** The `RawSquadAssignments` list as JSON. */
  function ToJson(xs: seq<Assignment>): seq<PyValue> {
    seq(|xs|, k requires 0 <= k < |xs| =>
      PyDict([("memberId", PyStr(xs[k].memberId)), ("absoluteMemberIdx", PyInt(xs[k].pos))]))
  }

  /** One entry read back from its JSON object. */
  function EntryOf(v: PyValue): Option<Assignment> {
    if !v.PyDict? then None
    else
      match (DictGet(v.entries, "memberId"), DictGet(v.entries, "absoluteMemberIdx"))
      case (Some(PyStr(id)), Some(PyInt(p))) => Some(Assignment(id, p))
      case _ => None
  }

  /** The `RawSquadAssignments` list read back; `None` where an entry lacks
      a field or has one of the wrong kind. */
  function FromJson(vs: seq<PyValue>): (r: Option<seq<Assignment>>)
    ensures r.Some? ==> |r.value| == |vs|
  {
    if vs == [] then Some([])
    else
      match (FromJson(vs[..|vs| - 1]), EntryOf(vs[|vs| - 1]))
      case (Some(front), Some(x)) => Some(front + [x])
      case _ => None
  }

  /** Reading the list back gives the assignments written. */
  lemma {:induction false} JsonRoundTrip(xs: seq<Assignment>)
    ensures FromJson(ToJson(xs)) == Some(xs)
  {
    if xs != [] {
      var n := |xs| - 1;
      assert ToJson(xs)[..n] == ToJson(xs[..n]);
      JsonRoundTrip(xs[..n]);
      var v := ToJson(xs)[n];
      assert v.entries == [("memberId", PyStr(xs[n].memberId)), ("absoluteMemberIdx", PyInt(xs[n].pos))];
      assert v.entries[1..] == [("absoluteMemberIdx", PyInt(xs[n].pos))];
      assert "memberId" != "absoluteMemberIdx";
      assert DictGet(v.entries, "absoluteMemberIdx") == Some(PyInt(xs[n].pos));
      assert EntryOf(v) == Some(xs[n]);
      assert xs[..n] + [xs[n]] == xs;
    }
  }

  // ------------------------------------------------------ the counter, proved

  /** The renumbered entries are entries of current members that were not
      given a position, taken from the existing list, at or after the
      counter's start. */
  lemma {:induction false} RenumberedEntry(existing: seq<Assignment>, members: seq<string>, np: Positions, i: int, y: Assignment)
    requires y in Renumbered(existing, members, np, i)
    ensures y.memberId in members && y.memberId !in Keys(np) && y.memberId in Ids(existing)
    ensures i <= y.pos
    decreases |existing|
  {
    var id := existing[0].memberId;
    var next := if id !in members || id in Keys(np) then i else FreeFrom(i + 1, np);
    if y in Renumbered(existing[1..], members, np, next) {
      RenumberedEntry(existing[1..], members, np, next, y);
      var k :| 0 <= k < |existing| - 1 && Ids(existing[1..])[k] == y.memberId;
      assert Ids(existing)[k + 1] == y.memberId;
    } else {
      assert Ids(existing)[0] == id;
    }
  }

  /** Every existing entry of a current member that was not given a
      position is renumbered. */
  lemma {:induction false} RenumberedComplete(existing: seq<Assignment>, members: seq<string>, np: Positions, i: int, k: nat)
    requires k < |existing|
    requires existing[k].memberId in members && existing[k].memberId !in Keys(np)
    ensures existing[k].memberId in Ids(Renumbered(existing, members, np, i))
    decreases k
  {
    var id := existing[0].memberId;
    var next := if id !in members || id in Keys(np) then i else FreeFrom(i + 1, np);
    var r := Renumbered(existing, members, np, i);
    if k == 0 {
      assert r[0].memberId == id;
      assert Ids(r)[0] == id;
    } else {
      RenumberedComplete(existing[1..], members, np, next, k - 1);
      var rest := Renumbered(existing[1..], members, np, next);
      var j :| 0 <= j < |rest| && Ids(rest)[j] == existing[k].memberId;
      if id !in members || id in Keys(np) {
        assert Ids(r)[j] == existing[k].memberId;
      } else {
        assert r[j + 1] == rest[j];
        assert Ids(r)[j + 1] == existing[k].memberId;
      }
    }
  }

  /** The renumbered positions increase strictly from the start, and every
      one but possibly the first is free; the first is free too when the
      start is. */
  predicate Counted(r: seq<Assignment>, np: Positions, i: int) {
    (forall a, b :: 0 <= a < b < |r| ==> r[a].pos < r[b].pos) &&
    (forall k :: 0 <= k < |r| ==> i <= r[k].pos) &&
    (forall k :: 0 < k < |r| ==> r[k].pos !in Taken(np)) &&
    (i !in Taken(np) ==> forall k :: 0 <= k < |r| ==> r[k].pos !in Taken(np))
  }

  lemma {:induction false} RenumberedPositions(existing: seq<Assignment>, members: seq<string>, np: Positions, i: int)
    ensures Counted(Renumbered(existing, members, np, i), np, i)
    decreases |existing|
  {
    var r := Renumbered(existing, members, np, i);
    if existing != [] {
      var id := existing[0].memberId;
      if id !in members || id in Keys(np) {
        assert r == Renumbered(existing[1..], members, np, i);
        RenumberedPositions(existing[1..], members, np, i);
      } else {
        var next := FreeFrom(i + 1, np);
        var rest := Renumbered(existing[1..], members, np, next);
        assert r == [Assignment(id, i)] + rest;
        RenumberedPositions(existing[1..], members, np, next);
        assert Counted(rest, np, next);
        forall k | 0 < k < |r| ensures r[k] == rest[k - 1] && i < r[k].pos && r[k].pos !in Taken(np) {
        }
        forall a, b | 0 <= a < b < |r| ensures r[a].pos < r[b].pos {
          if a > 0 {
            assert r[a] == rest[a - 1] && r[b] == rest[b - 1];
          }
        }
      }
    }
  }

  /** Existing entries with distinct ids are renumbered with distinct ids. */
  lemma {:induction false} RenumberedDistinct(existing: seq<Assignment>, members: seq<string>, np: Positions, i: int)
    requires DistinctIds(existing)
    ensures DistinctIds(Renumbered(existing, members, np, i))
    decreases |existing|
  {
    if existing != [] {
      var id := existing[0].memberId;
      var next := if id !in members || id in Keys(np) then i else FreeFrom(i + 1, np);
      var rest := Renumbered(existing[1..], members, np, next);
      assert DistinctIds(existing[1..]) by {
        forall a, b | 0 <= a < b < |existing| - 1 ensures existing[1..][a].memberId != existing[1..][b].memberId {
          assert existing[1..][a] == existing[a + 1] && existing[1..][b] == existing[b + 1];
        }
      }
      RenumberedDistinct(existing[1..], members, np, next);
      if !(id !in members || id in Keys(np)) {
        forall k | 0 <= k < |rest| ensures rest[k].memberId != id {
          RenumberedEntry(existing[1..], members, np, next, rest[k]);
          var j :| 0 <= j < |existing| - 1 && Ids(existing[1..])[j] == rest[k].memberId;
          assert existing[j + 1].memberId == rest[k].memberId;
        }
      }
    }
  }

  /** A member is in `to_assign` exactly when it is not excluded. */
  lemma {:induction false} ToAssignMember(members: seq<string>, excluded: seq<string>, m: string)
    ensures m in ToAssign(members, excluded) <==> m in members && m !in excluded
  {
    if members != [] {
      var n := |members| - 1;
      ToAssignMember(members[..n], excluded, m);
      assert members == members[..n] + [members[n]];
    }
  }

  /** Distinct members give distinct entries in `to_assign`. */
  lemma {:induction false} ToAssignDistinct(members: seq<string>, excluded: seq<string>)
    requires Distinct(members)
    ensures Distinct(ToAssign(members, excluded))
  {
    if members != [] {
      var n := |members| - 1;
      var m := members[n];
      var rest := ToAssign(members[..n], excluded);
      ToAssignDistinct(members[..n], excluded);
      if m !in excluded {
        ToAssignMember(members[..n], excluded, m);
        forall a | 0 <= a < |rest| ensures rest[a] != m {
          ToAssignMember(members[..n], excluded, rest[a]);
        }
      }
    }
  }

  // ------------------------------------------------------ sorting, proved

  /** Inserting adds exactly the one entry. */
  lemma {:induction false} InsertPerm(s: seq<Assignment>, x: Assignment)
    ensures multiset(Insert(s, x)) == multiset(s) + multiset{x}
  {
    if s != [] && x.pos >= s[0].pos {
      InsertPerm(s[1..], x);
      assert s == [s[0]] + s[1..];
    }
  }

  /** A lower bound on every position survives the insertion. */
  lemma {:induction false} InsertAbove(s: seq<Assignment>, x: Assignment, lo: int)
    requires forall k :: 0 <= k < |s| ==> lo <= s[k].pos
    requires lo <= x.pos
    ensures forall k :: 0 <= k < |Insert(s, x)| ==> lo <= Insert(s, x)[k].pos
  {
    if s != [] && x.pos >= s[0].pos {
      InsertAbove(s[1..], x, lo);
      assert forall k :: 1 <= k < |Insert(s, x)| ==> Insert(s, x)[k] == Insert(s[1..], x)[k - 1];
    }
  }

  lemma {:induction false} InsertSorted(s: seq<Assignment>, x: Assignment)
    requires Sorted(s)
    ensures Sorted(Insert(s, x))
  {
    if s != [] && x.pos >= s[0].pos {
      var rest := Insert(s[1..], x);
      InsertSorted(s[1..], x);
      InsertAbove(s[1..], x, s[0].pos);
      var r := Insert(s, x);
      assert r == [s[0]] + rest;
      forall a, b | 0 <= a < b < |r| ensures r[a].pos <= r[b].pos {
        assert r[b] == rest[b - 1];
        if a > 0 {
          assert r[a] == rest[a - 1];
        }
      }
    }
  }

  lemma {:induction false} InsertDistinctIds(s: seq<Assignment>, x: Assignment)
    requires DistinctIds(s)
    requires forall k :: 0 <= k < |s| ==> s[k].memberId != x.memberId
    ensures DistinctIds(Insert(s, x))
  {
    if s != [] && x.pos >= s[0].pos {
      var rest := Insert(s[1..], x);
      InsertDistinctIds(s[1..], x);
      InsertPerm(s[1..], x);
      forall b | 0 <= b < |rest| ensures s[0].memberId != rest[b].memberId {
        assert rest[b] in multiset(rest);
      }
    }
  }

  lemma {:induction false} InsertDistinctPositions(s: seq<Assignment>, x: Assignment)
    requires DistinctPositions(s)
    requires forall k :: 0 <= k < |s| ==> s[k].pos != x.pos
    ensures DistinctPositions(Insert(s, x))
  {
    if s != [] && x.pos >= s[0].pos {
      var rest := Insert(s[1..], x);
      InsertDistinctPositions(s[1..], x);
      InsertPerm(s[1..], x);
      forall b | 0 <= b < |rest| ensures s[0].pos != rest[b].pos {
        assert rest[b] in multiset(rest);
      }
    }
  }

  /** The sort is a permutation. */
  lemma {:induction false} SortPerm(xs: seq<Assignment>)
    ensures multiset(SortByPos(xs)) == multiset(xs)
  {
    if xs != [] {
      var n := |xs| - 1;
      var front := xs[..n];
      SortPerm(front);
      InsertPerm(SortByPos(front), xs[n]);
      assert SortByPos(xs) == Insert(SortByPos(front), xs[n]);
      assert xs == front + [xs[n]];
      assert multiset(xs) == multiset(front) + multiset{xs[n]};
    }
  }

  /** The sort orders by position. */
  lemma {:induction false} SortSorted(xs: seq<Assignment>)
    ensures Sorted(SortByPos(xs))
  {
    if xs != [] {
      var n := |xs| - 1;
      SortSorted(xs[..n]);
      InsertSorted(SortByPos(xs[..n]), xs[n]);
    }
  }

  /** Sorting keeps the ids distinct. */
  lemma {:induction false} SortDistinctIds(xs: seq<Assignment>)
    requires DistinctIds(xs)
    ensures DistinctIds(SortByPos(xs))
  {
    if xs != [] {
      var n := |xs| - 1;
      var s := SortByPos(xs[..n]);
      SortDistinctIds(xs[..n]);
      SortPerm(xs[..n]);
      forall k | 0 <= k < |s| ensures s[k].memberId != xs[n].memberId {
        assert s[k] in multiset(xs[..n]);
        var j :| 0 <= j < n && xs[..n][j] == s[k];
      }
      InsertDistinctIds(s, xs[n]);
    }
  }

  /** Sorting keeps the positions distinct. */
  lemma {:induction false} SortDistinctPositions(xs: seq<Assignment>)
    requires DistinctPositions(xs)
    ensures DistinctPositions(SortByPos(xs))
  {
    if xs != [] {
      var n := |xs| - 1;
      var s := SortByPos(xs[..n]);
      SortDistinctPositions(xs[..n]);
      SortPerm(xs[..n]);
      forall k | 0 <= k < |s| ensures s[k].pos != xs[n].pos {
        assert s[k] in multiset(xs[..n]);
        var j :| 0 <= j < n && xs[..n][j] == s[k];
      }
      InsertDistinctPositions(s, xs[n]);
    }
  }

  // ------------------------------------------------------ the result, proved

  /** An entry of the sorted list is an entry of the list sorted. */
  lemma SortedFrom(e: seq<Assignment>, y: Assignment) returns (j: nat)
    requires y in SortByPos(e)
    ensures j < |e| && e[j] == y
  {
    SortPerm(e);
    assert y in multiset(e);
    j :| j < |e| && e[j] == y;
  }

  /** An entry of the list sorted is an entry of the sorted list. */
  lemma SortedHas(e: seq<Assignment>, j: nat)
    requires j < |e|
    ensures e[j] in SortByPos(e)
  {
    SortPerm(e);
    assert e[j] in multiset(SortByPos(e));
  }

  /** The ids of the explicit and renumbered entries are the ids that
      `to_assign` leaves out. */
  lemma PlacedExcluded(np: Positions, existing: seq<Assignment>, members: seq<string>, start: int, j: nat)
    requires j < |Explicit(np) + Renumbered(existing, members, np, start)|
    ensures (Explicit(np) + Renumbered(existing, members, np, start))[j].memberId in Ids(existing) + Keys(np)
  {
    var ex := Explicit(np);
    var rn := Renumbered(existing, members, np, start);
    var y: Assignment := (ex + rn)[j];
    if j < |np| {
      assert Keys(np)[j] == y.memberId;
      assert (Ids(existing) + Keys(np))[|existing| + j] == y.memberId;
    } else {
      assert y == rn[j - |np|];
      RenumberedEntry(existing, members, np, start, y);
    }
  }

  /** The explicit and renumbered entries have distinct ids. */
  lemma PlacedDistinctIds(np: Positions, existing: seq<Assignment>, members: seq<string>, start: int)
    requires Distinct(Keys(np)) && DistinctIds(existing)
    ensures DistinctIds(Explicit(np) + Renumbered(existing, members, np, start))
  {
    var ex := Explicit(np);
    var rn := Renumbered(existing, members, np, start);
    assert DistinctIds(ex) by {
      forall a, b | 0 <= a < b < |ex| ensures ex[a].memberId != ex[b].memberId {
        assert Keys(np)[a] == ex[a].memberId && Keys(np)[b] == ex[b].memberId;
      }
    }
    RenumberedDistinct(existing, members, np, start);
    forall i, j | 0 <= i < |ex| && 0 <= j < |rn| ensures ex[i].memberId != rn[j].memberId {
      RenumberedEntry(existing, members, np, start, rn[j]);
      assert Keys(np)[i] == ex[i].memberId;
    }
    DistinctIdsConcat(ex, rn);
  }

  /** With distinct positions asked for, the explicit and renumbered entries
      have distinct positions. */
  lemma PlacedDistinctPositions(np: Positions, existing: seq<Assignment>, members: seq<string>)
    requires forall a, b :: 0 <= a < b < |np| ==> np[a].1 != np[b].1
    ensures DistinctPositions(Explicit(np) + Renumbered(existing, members, np, FreeFrom(0, np)))
  {
    var rn := Renumbered(existing, members, np, FreeFrom(0, np));
    var e := Explicit(np) + rn;
    RenumberedPositions(existing, members, np, FreeFrom(0, np));
    forall a, b | 0 <= a < b < |e| ensures e[a].pos != e[b].pos {
      if b < |np| {
        assert e[a].pos == np[a].1 && e[b].pos == np[b].1;
      } else if a >= |np| {
        assert e[a] == rn[a - |np|] && e[b] == rn[b - |np|];
      } else {
        assert e[b] == rn[b - |np|];
        assert e[a].pos == np[a].1;
        assert e[a].pos in Taken(np);
      }
    }
  }

  /** Members placed one apart after the last entry of a sorted list keep it
      sorted, and keep its positions distinct. */
  lemma AppendConsecutive(s: seq<Assignment>, t: seq<string>)
    requires Sorted(s)
    ensures Sorted(s + Consecutive(t, LastPos(s)))
    ensures DistinctPositions(s) ==> DistinctPositions(s + Consecutive(t, LastPos(s)))
  {
    var c := Consecutive(t, LastPos(s));
    var r := s + c;
    forall a, b | 0 <= a < b < |r|
      ensures r[a].pos <= r[b].pos
      ensures DistinctPositions(s) ==> r[a].pos != r[b].pos
    {
      if b < |s| {
        assert r[a] == s[a] && r[b] == s[b];
      } else if a >= |s| {
        assert r[a] == c[a - |s|] && r[b] == c[b - |s|];
      } else {
        assert r[a] == s[a] && r[b] == c[b - |s|];
        assert s[a].pos <= s[|s| - 1].pos;
      }
    }
  }

  /** Distinct members placed one apart have distinct ids. */
  lemma ConsecutiveDistinctIds(t: seq<string>, start: int)
    requires Distinct(t)
    ensures DistinctIds(Consecutive(t, start))
  {
    var c := Consecutive(t, start);
    forall a, b | 0 <= a < b < |c| ensures c[a].memberId != c[b].memberId {
      assert c[a].memberId == t[a] && c[b].memberId == t[b];
    }
  }

  /** Every position asked for is in the result as asked. */
  lemma SquadKeepsExplicit(np: Positions, existing: seq<Assignment>, members: seq<string>, k: nat)
    requires k < |np|
    ensures Assignment(np[k].0, np[k].1) in Squad(np, existing, members)
  {
    var e := Explicit(np) + Renumbered(existing, members, np, FreeFrom(0, np));
    assert e[k] == Assignment(np[k].0, np[k].1);
    SortedHas(e, k);
  }

  /** A current member given a position or with an existing entry has an
      explicit or renumbered entry. */
  lemma PlacedHasMember(np: Positions, existing: seq<Assignment>, members: seq<string>, start: int, m: string)
    returns (i: nat)
    requires m in members && (m in Keys(np) || m in Ids(existing))
    ensures i < |Explicit(np) + Renumbered(existing, members, np, start)|
    ensures (Explicit(np) + Renumbered(existing, members, np, start))[i].memberId == m
  {
    var rn := Renumbered(existing, members, np, start);
    if m in Keys(np) {
      var k :| 0 <= k < |np| && Keys(np)[k] == m;
      i := k;
    } else {
      var k :| 0 <= k < |existing| && Ids(existing)[k] == m;
      RenumberedComplete(existing, members, np, start, k);
      var j :| 0 <= j < |rn| && Ids(rn)[j] == m;
      i := |np| + j;
      assert (Explicit(np) + rn)[i] == rn[j];
    }
  }

  /** Every current member gets an entry. */
  lemma SquadPlacesMembers(np: Positions, existing: seq<Assignment>, members: seq<string>, m: string)
    requires m in members
    ensures m in Ids(Squad(np, existing, members))
  {
    var start := FreeFrom(0, np);
    var e := Explicit(np) + Renumbered(existing, members, np, start);
    var s := SortByPos(e);
    var t := ToAssign(members, Ids(existing) + Keys(np));
    var r := s + Consecutive(t, LastPos(s));
    assert Squad(np, existing, members) == r;
    if m in Keys(np) || m in Ids(existing) {
      var i := PlacedHasMember(np, existing, members, start, m);
      SortedHas(e, i);
      var j :| 0 <= j < |s| && s[j] == e[i];
      assert Ids(r)[j] == m;
    } else {
      ToAssignMember(members, Ids(existing) + Keys(np), m);
      var j :| 0 <= j < |t| && t[j] == m;
      assert r[|s| + j].memberId == m;
      assert Ids(r)[|s| + j] == m;
    }
  }

  /** Only current members and the ids given a position get an entry. */
  lemma SquadOnlyPlaces(np: Positions, existing: seq<Assignment>, members: seq<string>, y: Assignment)
    requires y in Squad(np, existing, members)
    ensures y.memberId in members || y.memberId in Keys(np)
  {
    var start := FreeFrom(0, np);
    var rn := Renumbered(existing, members, np, start);
    var e := Explicit(np) + rn;
    var s := SortByPos(e);
    var t := ToAssign(members, Ids(existing) + Keys(np));
    var r := s + Consecutive(t, LastPos(s));
    assert Squad(np, existing, members) == r;
    if y in s {
      var j := SortedFrom(e, y);
      if j < |np| {
        assert Keys(np)[j] == y.memberId;
      } else {
        assert y == rn[j - |np|];
        RenumberedEntry(existing, members, np, start, y);
      }
    } else {
      var j :| 0 <= j < |r| && r[j] == y;
      assert y.memberId == t[j - |s|];
      ToAssignMember(members, Ids(existing) + Keys(np), y.memberId);
    }
  }

  lemma DistinctIdsConcat(a: seq<Assignment>, b: seq<Assignment>)
    requires DistinctIds(a) && DistinctIds(b)
    requires forall i, j :: 0 <= i < |a| && 0 <= j < |b| ==> a[i].memberId != b[j].memberId
    ensures DistinctIds(a + b)
  {
    forall x, y | 0 <= x < y < |a + b| ensures (a + b)[x].memberId != (a + b)[y].memberId {
      if y < |a| {
      } else if x >= |a| {
        assert (a + b)[x] == b[x - |a|] && (a + b)[y] == b[y - |a|];
      } else {
        assert (a + b)[y] == b[y - |a|];
      }
    }
  }

  /** With one position asked per id, distinct members and existing entries
      with distinct ids, every id has one entry. */
  lemma SquadDistinctIds(np: Positions, existing: seq<Assignment>, members: seq<string>)
    requires Distinct(Keys(np)) && Distinct(members) && DistinctIds(existing)
    ensures DistinctIds(Squad(np, existing, members))
  {
    var start := FreeFrom(0, np);
    var e := Explicit(np) + Renumbered(existing, members, np, start);
    var s := SortByPos(e);
    var excluded := Ids(existing) + Keys(np);
    var t := ToAssign(members, excluded);
    var c := Consecutive(t, LastPos(s));
    assert Squad(np, existing, members) == s + c;
    PlacedDistinctIds(np, existing, members, start);
    SortDistinctIds(e);
    ToAssignDistinct(members, excluded);
    ConsecutiveDistinctIds(t, LastPos(s));
    forall i, j | 0 <= i < |s| && 0 <= j < |c| ensures s[i].memberId != c[j].memberId {
      var k := SortedFrom(e, s[i]);
      PlacedExcluded(np, existing, members, start, k);
      ToAssignMember(members, excluded, t[j]);
      assert c[j].memberId == t[j];
    }
    DistinctIdsConcat(s, c);
  }

  /** With distinct positions asked for, every position has one entry. */
  lemma SquadDistinctPositions(np: Positions, existing: seq<Assignment>, members: seq<string>)
    requires forall a, b :: 0 <= a < b < |np| ==> np[a].1 != np[b].1
    ensures DistinctPositions(Squad(np, existing, members))
  {
    var e := Explicit(np) + Renumbered(existing, members, np, FreeFrom(0, np));
    var s := SortByPos(e);
    var t := ToAssign(members, Ids(existing) + Keys(np));
    assert Squad(np, existing, members) == s + Consecutive(t, LastPos(s));
    PlacedDistinctPositions(np, existing, members);
    SortDistinctPositions(e);
    SortSorted(e);
    AppendConsecutive(s, t);
  }

  /** The whole result is ordered by position. */
  lemma SquadSorted(np: Positions, existing: seq<Assignment>, members: seq<string>)
    ensures Sorted(Squad(np, existing, members))
  {
    var e := Explicit(np) + Renumbered(existing, members, np, FreeFrom(0, np));
    var s := SortByPos(e);
    var t := ToAssign(members, Ids(existing) + Keys(np));
    assert Squad(np, existing, members) == s + Consecutive(t, LastPos(s));
    SortSorted(e);
    AppendConsecutive(s, t);
  }

  // ------------------------------------------------------ as written

  /** As written, a member renumbered from 0 collides with a member asked
      to be at 0. */
  lemma SquadAsWrittenPositionClash()
    ensures SquadAsWritten([("b", 0)], [Assignment("a", 0), Assignment("b", 1)], ["a", "b"])
            == [Assignment("b", 0), Assignment("a", 0)]
    ensures Squad([("b", 0)], [Assignment("a", 0), Assignment("b", 1)], ["a", "b"])
            == [Assignment("b", 0), Assignment("a", 1)]
  {
    var np := [("b", 0)];
    var existing := [Assignment("a", 0), Assignment("b", 1)];
    assert Keys(np) == ["b"];
    assert Ids(existing) == ["a", "b"];
    assert np[0].1 == 0 && 0 in Taken(np) && 1 !in Taken(np);
    assert existing[1..][1..] == [];
    assert FreeFrom(0, np) == 1;
    assert Renumbered(existing, ["a", "b"], np, 0) == [Assignment("a", 0)];
    assert Renumbered(existing, ["a", "b"], np, 1) == [Assignment("a", 1)];
    assert ["a", "b"][..1] == ["a"];
    assert ToAssign(["a"], Ids(existing)) == [];
    assert ToAssign(["a"], Ids(existing) + Keys(np)) == [];
    var e0 := [Assignment("b", 0), Assignment("a", 0)];
    assert e0[..1] == [Assignment("b", 0)];
    assert SortByPos([Assignment("b", 0)]) == [Assignment("b", 0)];
    assert Insert([Assignment("b", 0)], Assignment("a", 0)) == e0;
    assert SortByPos(e0) == e0;
    assert Explicit(np) == [Assignment("b", 0)];
    assert ToAssign(["a", "b"], Ids(existing)) == [];
    assert Explicit(np) + Renumbered(existing, ["a", "b"], np, 0) == e0;
    assert Consecutive([], 1) == [];
    var e1 := [Assignment("b", 0), Assignment("a", 1)];
    assert e1[..1] == [Assignment("b", 0)];
    assert Insert([Assignment("b", 0)], Assignment("a", 1)) == e1;
    assert SortByPos(e1) == e1;
    assert ToAssign(["a", "b"], Ids(existing) + Keys(np)) == [];
    assert Explicit(np) + Renumbered(existing, ["a", "b"], np, 1) == e1;
    assert Consecutive([], 2) == [];
  }

  /** As written, a member asked to be at a position and without an
      existing entry is placed twice. */
  lemma SquadAsWrittenPlacesTwice()
    ensures SquadAsWritten([("c", 2)], [], ["c"]) == [Assignment("c", 2), Assignment("c", 3)]
    ensures Squad([("c", 2)], [], ["c"]) == [Assignment("c", 2)]
  {
    var np := [("c", 2)];
    assert Keys(np) == ["c"];
    assert Ids([]) == [];
    assert ["c"][..0] == [];
    assert ToAssign(["c"], []) == ["c"];
    assert ToAssign(["c"], [] + Keys(np)) == [];
    assert Explicit(np) == [Assignment("c", 2)];
    assert SortByPos([Assignment("c", 2)]) == [Assignment("c", 2)];
  }
}
