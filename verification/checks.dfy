/** Check lists: the predicates a bot or a command runs before invoking a
    command, and the list operations that maintain them. */
module Checks {
  import opened Wrappers
  import opened CommandTypes
  import opened Exceptions

  /** Running `checks` in order, where `run` says what calling each one did. */
  function RunChecks(checks: seq<CheckId>, run: CheckId -> CheckOutcome<Exc>): Result<bool, Exc>
    decreases |checks|
  {
    if checks == [] then Ok(true)
    else
      match run(checks[0])
      case Raised(e) => Err(e)
      case Falsy => Ok(false)
      case Truthy => RunChecks(checks[1..], run)
  }

  /** The first raised exception propagates, the first falsy result gives
      `False`, and only an all-truthy run (an empty one included) gives
      `True`. */
  lemma {:induction false} RunChecksSpec(checks: seq<CheckId>, run: CheckId -> CheckOutcome<Exc>)
    ensures RunChecks(checks, run) == Ok(true) <==>
      forall i :: 0 <= i < |checks| ==> run(checks[i]).Truthy?
    ensures RunChecks(checks, run) == Ok(false) <==>
      exists i :: 0 <= i < |checks| && run(checks[i]).Falsy? &&
                  forall j :: 0 <= j < i ==> run(checks[j]).Truthy?
    ensures forall e :: RunChecks(checks, run) == Err(e) <==>
      exists i :: 0 <= i < |checks| && run(checks[i]) == Raised(e) &&
                  forall j :: 0 <= j < i ==> run(checks[j]).Truthy?
    decreases |checks|
  {
    if checks != [] && run(checks[0]).Truthy? {
      var rest := checks[1..];
      RunChecksSpec(rest, run);
      assert forall i :: 0 < i < |checks| ==> rest[i - 1] == checks[i];
      if RunChecks(checks, run) == Ok(false) {
        var i :| 0 <= i < |rest| && run(rest[i]).Falsy? &&
                 forall j :: 0 <= j < i ==> run(rest[j]).Truthy?;
        assert run(checks[i + 1]).Falsy?;
      }
      forall e | RunChecks(checks, run) == Err(e)
        ensures exists i :: 0 <= i < |checks| && run(checks[i]) == Raised(e) &&
                  forall j :: 0 <= j < i ==> run(checks[j]).Truthy?
      {
        var i :| 0 <= i < |rest| && run(rest[i]) == Raised(e) &&
                 forall j :: 0 <= j < i ==> run(rest[j]).Truthy?;
        assert run(checks[i + 1]) == Raised(e);
      }
    }
  }

  /** `list.remove(x)` with the `ValueError` swallowed. */
  function RemoveFirst(xs: seq<CheckId>, x: CheckId): seq<CheckId>
  {
    if xs == [] then []
    else if xs[0] == x then xs[1..]
    else [xs[0]] + RemoveFirst(xs[1..], x)
  }

  /** Exactly one copy of `x` goes, when there is one. */
  lemma {:induction false} RemoveFirstCount(xs: seq<CheckId>, x: CheckId)
    ensures multiset(RemoveFirst(xs, x)) == multiset(xs) - multiset{x}
  {
    if xs != [] {
      assert xs == [xs[0]] + xs[1..];
      if xs[0] != x {
        RemoveFirstCount(xs[1..], x);
      }
    }
  }

  /** The position of the occurrence `RemoveFirst` takes out: the first. */
  lemma {:induction false} RemovedIndex(xs: seq<CheckId>, x: CheckId) returns (i: nat)
    requires x in xs
    ensures i < |xs| && xs[i] == x && x !in xs[..i]
    ensures RemoveFirst(xs, x) == xs[..i] + xs[i + 1..]
  {
    if xs[0] == x {
      i := 0;
      assert xs[..0] == [] && xs[1..] == xs[i + 1..];
    } else {
      var tail := xs[1..];
      var j := RemovedIndex(tail, x);
      i := j + 1;
      var front, back := tail[..j], tail[j + 1..];
      assert RemoveFirst(xs, x) == [xs[0]] + (front + back);
      assert xs[..i] == [xs[0]] + front;
      assert xs[i + 1..] == back;
      assert [xs[0]] + (front + back) == ([xs[0]] + front) + back;
    }
  }

  /** Only the first occurrence goes, and a missing element changes
      nothing. */
  lemma RemoveFirstSpec(xs: seq<CheckId>, x: CheckId)
    ensures x !in xs ==> RemoveFirst(xs, x) == xs
    ensures x in xs ==> exists i :: 0 <= i < |xs| && xs[i] == x && x !in xs[..i] &&
                                   RemoveFirst(xs, x) == xs[..i] + xs[i + 1..]
  {
    if x in xs {
      var i := RemovedIndex(xs, x);
    } else {
      RemoveFirstAbsent(xs, x);
    }
  }

  lemma {:induction false} RemoveFirstAbsent(xs: seq<CheckId>, x: CheckId)
    requires x !in xs
    ensures RemoveFirst(xs, x) == xs
  {
    if xs != [] {
      RemoveFirstAbsent(xs[1..], x);
      assert xs == [xs[0]] + xs[1..];
    }
  }

  /** Adding a check and then removing it gives back the list it was added
      to when the check was not already there. */
  lemma {:induction false} AppendThenRemove(xs: seq<CheckId>, x: CheckId)
    requires x !in xs
    ensures RemoveFirst(xs + [x], x) == xs
  {
    var ys := xs + [x];
    var i := RemovedIndex(ys, x);
    assert forall k :: 0 <= k < |xs| ==> ys[k] == xs[k];
    assert i == |xs|;
    assert ys[..i] == xs;
  }
}
