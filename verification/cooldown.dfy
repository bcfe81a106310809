/** Rate limiting for commands: the `Cooldown` token bucket, the per-author
    `CooldownMapping` cache of buckets, and the non-waiting path of the
    `MaxConcurrency` counters. Time is a real number of seconds supplied by
    the caller; the wall clock is a parameter. */
module Cooldowns {
  import opened Wrappers
  import opened CommandTypes
  import opened CommandErrors
  import opened Exceptions

  /** `current or time.time()`: an absent or zero time falls back to the clock. */
  function Now(current: Option<real>, clock: real): (t: real)
    ensures current.Some? && current.value != 0.0 ==> t == current.value
    ensures current.None? || current.value == 0.0 ==> t == clock
  {
    if current.None? || current.value == 0.0 then clock else current.value
  }

  // ------------------------------------------------------------ token bucket

  /** The mutable part of a `Cooldown`: `_window`, `_tokens` and `_last`. */
  datatype Window = Window(window: real, tokens: int, last: real)

  /** The state of a bucket that has never been used. */
  function Fresh(rate: int): Window {
    Window(0.0, rate, 0.0)
  }

  /** `get_tokens(t)`: the bucket refills to `rate` once the window has
      passed, otherwise it holds what it held. */
  function Tokens(rate: int, per: real, s: Window, t: real): (n: int)
    ensures t > s.window + per ==> n == rate
    ensures t <= s.window + per ==> n == s.tokens
  {
    if t > s.window + per then rate else s.tokens
  }

  /** `update_rate_limit(t)` on a bucket of `rate` tokens per `per` seconds:
      the new state and the retry-after delay, `None` when a token was taken. */
  function Step(rate: int, per: real, s: Window, t: real): (Window, Option<real>) {
    var tokens := Tokens(rate, per, s, t);
    var window := if tokens == rate then t else s.window;
    if tokens == 0 then (Window(window, 0, t), Some(per - (t - window)))
    else (Window(if tokens - 1 == 0 then t else window, tokens - 1, t), None)
  }

  /** A refused call reports how long until the window ends and takes
      nothing; an accepted call takes exactly one token; either way the last
      use is now. */
  lemma StepOutcome(rate: int, per: real, s: Window, t: real)
    ensures var (s', retry) := Step(rate, per, s, t);
      var n := Tokens(rate, per, s, t);
      s'.last == t &&
      (retry.Some? <==> n == 0) &&
      (n == 0 ==> s'.tokens == 0 && retry.value == per - (t - s'.window)) &&
      (n != 0 ==> s'.tokens == n - 1)
  {
  }

  /** A new window opens when the first token of a full bucket is taken and
      when the last token is taken; otherwise the window stays put. */
  lemma StepWindow(rate: int, per: real, s: Window, t: real)
    ensures var s' := Step(rate, per, s, t).0;
      var n := Tokens(rate, per, s, t);
      (n == rate || n == 1 ==> s'.window == t) &&
      (n != rate && n != 1 ==> s'.window == s.window)
  {
  }

  /** The bucket invariant `0 <= tokens <= rate`. */
  predicate InRange(rate: int, s: Window) {
    0 <= s.tokens <= rate
  }

  lemma StepKeepsRange(rate: int, per: real, s: Window, t: real)
    requires InRange(rate, s)
    ensures InRange(rate, Step(rate, per, s, t).0)
  {
  }

  /** How many of the calls at times `ts` take a token, starting from `s`. */
  function Accepted(rate: int, per: real, s: Window, ts: seq<real>): (k: nat)
    ensures k <= |ts|
    decreases |ts|
  {
    if ts == [] then 0
    else
      var (s', retry) := Step(rate, per, s, ts[0]);
      (if retry.None? then 1 else 0) + Accepted(rate, per, s', ts[1..])
  }

  /** A burst of calls at one instant inside the current window takes at
      most the tokens left. */
  lemma {:induction false} BurstWithinWindow(rate: int, per: real, s: Window, t: real, n: nat)
    requires InRange(rate, s) && per >= 0.0
    requires t <= s.window + per
    requires 0 < s.tokens < rate
    ensures Accepted(rate, per, s, seq(n, _ => t)) <= s.tokens
    decreases n
  {
    var ts := seq(n, _ => t);
    if n > 0 {
      var (s', retry) := Step(rate, per, s, t);
      var rest := seq(n - 1, _ => t);
      assert ts[1..] == rest;
      assert s'.tokens == s.tokens - 1;
      if s'.tokens == 0 {
        assert s'.window == t;
        AcceptedWhileEmpty(rate, per, s', rest);
      } else {
        assert s'.window == s.window;
        BurstWithinWindow(rate, per, s', t, n - 1);
      }
    }
  }

  /** An empty bucket refuses every call until its window has passed. */
  lemma {:induction false} AcceptedWhileEmpty(rate: int, per: real, s: Window, ts: seq<real>)
    requires s.tokens == 0 && rate != 0
    requires forall i :: 0 <= i < |ts| ==> ts[i] <= s.window + per
    ensures Accepted(rate, per, s, ts) == 0
    decreases |ts|
  {
    if ts != [] {
      var (s', retry) := Step(rate, per, s, ts[0]);
      assert s' == Window(s.window, 0, ts[0]);
      AcceptedWhileEmpty(rate, per, s', ts[1..]);
    }
  }

  /** A burst of calls all made at one instant takes at most `rate` tokens,
      whatever state the bucket was in. */
  lemma {:induction false} BurstBound(rate: int, per: real, s: Window, t: real, n: nat)
    requires InRange(rate, s) && per >= 0.0
    ensures Accepted(rate, per, s, seq(n, _ => t)) <= rate
  {
    var ts := seq(n, _ => t);
    if n > 0 && rate > 0 {
      var (s', retry) := Step(rate, per, s, t);
      var rest := seq(n - 1, _ => t);
      assert ts[1..] == rest;
      var tk := Tokens(rate, per, s, t);
      if tk == 0 {
        assert s'.tokens == 0 && s'.window == s.window && t <= s.window + per;
        AcceptedWhileEmpty(rate, per, s', rest);
      } else if s'.tokens == 0 {
        assert s'.window == t;
        AcceptedWhileEmpty(rate, per, s', rest);
      } else {
        assert t <= s'.window + per by {
          if tk == rate { assert s'.window == t; } else { assert s'.window == s.window; }
        }
        BurstWithinWindow(rate, per, s', t, n - 1);
      }
    } else if n > 0 {
      assert Accepted(rate, per, s, ts) == 0 by {
        assert Tokens(rate, per, s, t) == 0;
        AcceptedWhileEmptyZero(per, s, ts);
      }
    }
  }

  /** A bucket of rate zero never hands out a token. */
  lemma {:induction false} AcceptedWhileEmptyZero(per: real, s: Window, ts: seq<real>)
    requires s.tokens == 0
    ensures Accepted(0, per, s, ts) == 0
    decreases |ts|
  {
    if ts != [] {
      var (s', retry) := Step(0, per, s, ts[0]);
      assert s'.tokens == 0;
      AcceptedWhileEmptyZero(per, s', ts[1..]);
    }
  }

  /** `Cooldown`: a token bucket of `rate` uses per `per` seconds. */
  class Cooldown {
    const rate: int
    const per: real
    const kind: BucketType
    var window: real
    var tokens: int
    var last: real

    /** A new bucket is full, with window and last use at time zero. */
    constructor (rate: int, per: real, kind: BucketType)
      ensures this.rate == rate && this.per == per && this.kind == kind
      ensures State() == Fresh(rate)
    {
      this.rate := rate;
      this.per := per;
      this.kind := kind;
      window := 0.0;
      tokens := rate;
      last := 0.0;
    }

    function State(): Window
      reads this
    {
      Window(window, tokens, last)
    }

    predicate Valid()
      reads this
    {
      InRange(rate, State())
    }

    /** `get_tokens(current)`; it changes nothing. */
    function GetTokens(current: Option<real>, clock: real): (n: int)
      reads this
      ensures n == Tokens(rate, per, State(), Now(current, clock))
    {
      if Now(current, clock) > window + per then rate else tokens
    }

    /** `update_rate_limit(current)`. */
    method UpdateRateLimit(current: Option<real>, clock: real) returns (retry: Option<real>)
      modifies this
      ensures old(Valid()) ==> Valid()
      ensures (State(), retry) == Step(rate, per, old(State()), Now(current, clock))
    {
      var t := Now(current, clock);
      if Valid() {
        StepKeepsRange(rate, per, State(), t);
      }
      last := t;
      tokens := GetTokens(Some(t), clock);
      if tokens == rate {
        window := t;
      }
      if tokens == 0 {
        return Some(per - (t - window));
      }
      tokens := tokens - 1;
      if tokens == 0 {
        window := t;
      }
      return None;
    }

    /** `reset()`: full again, last use cleared, window untouched. */
    method Reset()
      modifies this
      ensures State() == Window(old(window), rate, 0.0)
      ensures Valid() <==> rate >= 0
    {
      tokens := rate;
      last := 0.0;
    }

    /** `copy()`: a fresh bucket with the same configuration, not the same
        state. */
    method Copy() returns (c: Cooldown)
      ensures fresh(c)
      ensures c.rate == rate && c.per == per && c.kind == kind && c.State() == Fresh(rate)
    {
      c := new Cooldown(rate, per, kind);
    }
  }

  // ------------------------------------------------------- per-author cache

  /** A cached bucket is stale once a whole period has gone by since its
      last use. */
  predicate Stale(b: Cooldown, t: real)
    reads b
  {
    t > b.last + b.per
  }

  /** `CooldownMapping`: the shared original bucket and, for per-author
      buckets, one copy per author id. */
  class CooldownMapping {
    var cooldown: Cooldown?
    var cache: map<Option<string>, Cooldown>

    constructor (original: Cooldown?)
      ensures cooldown == original && cache == map[]
    {
      cooldown := original;
      cache := map[];
    }

    /** `from_cooldown(rate, per, type)`. */
    static method FromCooldown(rate: int, per: real, kind: BucketType) returns (m: CooldownMapping)
      ensures fresh(m) && fresh(m.cooldown) && m.cache == map[]
      ensures m.cooldown != null && m.cooldown.rate == rate && m.cooldown.per == per
      ensures m.cooldown.kind == kind && m.cooldown.State() == Fresh(rate)
    {
      var c := new Cooldown(rate, per, kind);
      m := new CooldownMapping(c);
    }

    /** The `valid` property. */
    predicate IsValid()
      reads this
    {
      cooldown != null
    }

    function Buckets(): set<Cooldown>
      reads this
    {
      set k | k in cache :: cache[k]
    }

    /** The cache with every stale entry removed. */
    function Live(t: real): (m: map<Option<string>, Cooldown>)
      reads this, Buckets()
      ensures forall k :: k in m <==> k in cache && !Stale(cache[k], t)
      ensures forall k :: k in m ==> m[k] == cache[k]
    {
      map k | k in cache && !Stale(cache[k], t) :: cache[k]
    }

    /** `_verify_cache_integrity(current)`: drops every stale bucket and
        nothing else. */
    method VerifyCacheIntegrity(current: Option<real>, clock: real)
      modifies this
      ensures cooldown == old(cooldown)
      ensures cache == old(Live(Now(current, clock)))
    {
      var t := Now(current, clock);
      ghost var live := Live(t);
      var dead := set k | k in cache && Stale(cache[k], t);
      while dead != {}
        invariant dead <= cache.Keys
        invariant cooldown == old(cooldown)
        invariant forall k :: k in cache ==> k in old(cache) && cache[k] == old(cache)[k]
        invariant forall k :: k in old(cache) ==> (k in live <==> k in cache && k !in dead)
        decreases dead
      {
        var k :| k in dead;
        cache := cache - {k};
        dead := dead - {k};
      }
      assert cache == live;
    }

    /** `get_bucket(message, current)`: the shared bucket for the default
        type; otherwise the author's cached bucket after purging stale ones,
        a fresh copy of the original when the author has none. */
    method GetBucket(authorId: string, current: Option<real>, clock: real) returns (b: Cooldown)
      requires IsValid()
      modifies this
      ensures cooldown == old(cooldown)
      ensures cooldown.kind == Default ==> b == cooldown && cache == old(cache)
      ensures cooldown.kind == User ==>
        var live := old(Live(Now(current, clock)));
        var key := Some(authorId);
        (key in live ==> b == live[key] && cache == live) &&
        (key !in live ==> fresh(b) && cache == live[key := b] &&
                          b.rate == cooldown.rate && b.per == cooldown.per &&
                          b.kind == cooldown.kind && b.State() == Fresh(cooldown.rate))
    {
      if cooldown.kind == Default {
        return cooldown;
      }
      VerifyCacheIntegrity(current, clock);
      var key := cooldown.kind.GetKey(authorId);
      if key !in cache {
        b := cooldown.Copy();
        cache := cache[key := b];
      } else {
        b := cache[key];
      }
    }
  }

  // ----------------------------------------------------- max concurrency

  /** `_Semaphore` without its waiters: a counter of free slots. */
  class Semaphore {
    var value: int

    constructor (number: int)
      ensures value == number
    {
      value := number;
    }

    /** `locked()`. */
    predicate Locked()
      reads this
    {
      value == 0
    }

    /** `acquire(wait=False)`: takes a slot when one is free. */
    method TryAcquire() returns (acquired: bool)
      modifies this
      ensures acquired <==> old(value) > 0
      ensures value == if acquired then old(value) - 1 else old(value)
    {
      if value <= 0 {
        return false;
      }
      value := value - 1;
      return true;
    }

    /** `release()`. */
    method Release()
      modifies this
      ensures value == old(value) + 1
    {
      value := value + 1;
    }
  }

  /** What `MaxConcurrency.acquire` does: takes a slot, raises
      `MaxConcurrencyReached`, or (with `wait` set) suspends. */
  datatype Outcome = Acquired | Rejected(error: Error) | Suspended

  /** The free-slot counts of the key table, as a value. */
  type Counts = map<Option<string>, int>

  /** Every entry holds between 0 and `number - 1` free slots: an entry
      exists only while someone holds a slot. */
  predicate CountsValid(c: Counts, number: int) {
    number > 0 && forall k :: k in c ==> 0 <= c[k] < number
  }

  /** `acquire` on the counts: a missing key starts with `number` free slots. */
  function AcquireCounts(c: Counts, key: Option<string>, number: int, per: BucketType,
                         wait: bool): (Counts, Outcome)
  {
    var v := if key in c then c[key] else number;
    if v > 0 then (c[key := v - 1], Acquired)
    else if wait then (c[key := v], Suspended)
    else (c[key := v], Rejected(MaxConcurrencyReached(number, per)))
  }

  /** `release` on the counts: an unknown key is ignored, and an entry whose
      slots are all free again is deleted. */
  function ReleaseCounts(c: Counts, key: Option<string>, number: int): Counts {
    if key !in c then c
    else if c[key] + 1 >= number then c - {key}
    else c[key := c[key] + 1]
  }

  /** `MaxConcurrencyReached` is raised exactly when the key has no free
      slot and the command does not wait; a refusal changes no count. */
  lemma AcquireOutcome(c: Counts, key: Option<string>, number: int, per: BucketType, wait: bool)
    requires CountsValid(c, number)
    ensures var (c', r) := AcquireCounts(c, key, number, per, wait);
      (r.Rejected? <==> key in c && c[key] == 0 && !wait) &&
      (r.Rejected? ==> r.error == MaxConcurrencyReached(number, per) && c' == c) &&
      (r.Acquired? <==> key !in c || c[key] > 0)
  {
  }

  lemma AcquireKeepsValid(c: Counts, key: Option<string>, number: int, per: BucketType,
                          wait: bool)
    requires CountsValid(c, number)
    ensures CountsValid(AcquireCounts(c, key, number, per, wait).0, number)
  {
  }

  lemma ReleaseKeepsValid(c: Counts, key: Option<string>, number: int)
    requires CountsValid(c, number)
    ensures CountsValid(ReleaseCounts(c, key, number), number)
  {
  }

  /** Releasing what was just acquired restores the table exactly; in
      particular the entry of a key nobody else holds disappears. */
  lemma AcquireReleaseRoundTrip(c: Counts, key: Option<string>, number: int, per: BucketType,
                                wait: bool)
    requires CountsValid(c, number)
    requires AcquireCounts(c, key, number, per, wait).1.Acquired?
    ensures ReleaseCounts(AcquireCounts(c, key, number, per, wait).0, key, number) == c
  {
    var c' := AcquireCounts(c, key, number, per, wait).0;
    if key in c {
      assert c'[key] + 1 == c[key] < number;
      assert c'[key := c'[key] + 1] == c;
    } else {
      assert c' - {key} == c;
    }
  }

  /** `MaxConcurrency` with its table of semaphores, one per bucket key. */
  class MaxConcurrency {
    const number: int
    const per: BucketType
    const wait: bool
    var mapping: map<Option<string>, Semaphore>

    constructor (number: int, per: BucketType, wait: bool)
      requires number > 0
      ensures this.number == number && this.per == per && this.wait == wait
      ensures mapping == map[] && Valid()
    {
      this.number := number;
      this.per := per;
      this.wait := wait;
      mapping := map[];
    }

    /** `MaxConcurrency(number, per=per, wait=wait)`: `ValueError` for a
        number below one. */
    static method New(number: int, per: BucketType, wait: bool)
      returns (r: Result<MaxConcurrency, Exc>)
      ensures r.Err? <==> number <= 0
      ensures r.Err? ==> r.error == ValueError("max_concurrency 'number' cannot be less than 1")
      ensures r.Ok? ==> fresh(r.value) && r.value.Valid() && r.value.Counts() == map[] &&
                        r.value.number == number && r.value.per == per && r.value.wait == wait
    {
      if number <= 0 {
        return Err(ValueError("max_concurrency 'number' cannot be less than 1"));
      }
      var m := new MaxConcurrency(number, per, wait);
      return Ok(m);
    }

    function Sems(): set<Semaphore>
      reads this
    {
      set k | k in mapping :: mapping[k]
    }

    function Counts(): Counts
      reads this, Sems()
    {
      map k | k in mapping :: mapping[k].value
    }

    /** Distinct keys own distinct semaphores, and the counts are in range. */
    predicate Valid()
      reads this, Sems()
    {
      (forall k1, k2 :: k1 in mapping && k2 in mapping && k1 != k2 ==> mapping[k1] != mapping[k2]) &&
      CountsValid(Counts(), number)
    }

    /** `acquire(message)`. */
    method Acquire(authorId: string) returns (r: Outcome)
      requires Valid()
      modifies this, Sems()
      ensures Valid()
      ensures (Counts(), r) == AcquireCounts(old(Counts()), per.GetKey(authorId), number, per, wait)
    {
      var key := per.GetKey(authorId);
      ghost var c := Counts();
      var sem: Semaphore;
      if key in mapping {
        sem := mapping[key];
      } else {
        sem := new Semaphore(number);
        mapping := mapping[key := sem];
      }
      if wait && sem.value <= 0 {
        assert Counts() == c[key := sem.value];
        return Suspended;
      }
      var acquired := sem.TryAcquire();
      assert Counts() == c[key := sem.value];
      AcquireKeepsValid(c, key, number, per, wait);
      if !acquired {
        return Rejected(MaxConcurrencyReached(number, per));
      }
      return Acquired;
    }

    /** `release(message)`. */
    method Release(authorId: string)
      requires Valid()
      modifies this, Sems()
      ensures Valid()
      ensures Counts() == ReleaseCounts(old(Counts()), per.GetKey(authorId), number)
    {
      var key := per.GetKey(authorId);
      ghost var c := Counts();
      if key !in mapping {
        return;
      }
      var sem := mapping[key];
      sem.Release();
      assert Counts() == c[key := sem.value];
      if sem.value >= number {
        mapping := mapping - {key};
        assert Counts() == c - {key};
      }
      ReleaseKeepsValid(c, key, number);
    }
  }
}
