/** Cogs: named groups of commands and event handlers that are injected
    into a bot together, and taken back out together when one of the
    commands cannot be registered. */
module Cogs {
  import opened Wrappers
  import opened PyText
  import opened CommandTypes
  import opened CommandErrors
  import opened Exceptions
  import opened CommandsCore
  import opened Bots
  import opened Checks

  // ------------------------------------------------------------ naming

  /** The name check of `CogMeta.__new__`: the last word of the name must
      not parse as an integer. */
  function ValidateCogName(name: string): (r: Result<string, Exc>)
    ensures Split(name) == [] ==> r == Err(IndexError("list index out of range"))
    ensures Split(name) != [] ==>
      (r.Ok? <==> ParseInt(Split(name)[|Split(name)| - 1]).None?)
    ensures r.Ok? ==> r.value == name
    ensures r.Err? && Split(name) != [] ==>
      r.error == NameError("Cog names cannot end with a space followed by a number or solely consist of a number.")
  {
    var words := Split(name);
    if words == [] then Err(IndexError("list index out of range"))
    else if ParseInt(words[|words| - 1]).Some? then
      Err(NameError("Cog names cannot end with a space followed by a number or solely consist of a number."))
    else Ok(name)
  }

  /** Any name followed by a space and a number is refused, and so is a
      number on its own. */
  lemma CogNameEndingInNumber(s: string, n: int)
    ensures ValidateCogName(s + " " + IntToString(n)).Err?
    ensures ValidateCogName(IntToString(n)).Err?
  {
    var w := IntToString(n);
    IntToStringWord(n);
    SplitAppend(s, w);
    SplitWord(w);
    IntRoundTrip(n);
  }

  /** The handler-name check of `CogMeta.__new__` for a method of class
      `className` that is an event handler. */
  function CheckHandlerName(className: string, elem: string): (r: Option<Exc>)
    ensures r.Some? <==> StartsWith(elem, "cog_") || StartsWith(elem, "bot_")
    ensures r.Some? ==> r.value.TypeError?
  {
    if StartsWith(elem, "cog_") || StartsWith(elem, "bot_") then
      Some(TypeError("Commands or listeners must not start with cog_ or bot_ (in method " +
                     className + "." + elem + ")"))
    else None
  }

  // ------------------------------------------------------------ events

  /** What `Cog.event` was given: nothing, an event name, or (when used
      without parentheses) the decorated coroutine itself. */
  datatype EventArg = NoEvent | EventName(name: string) | DecoratedDirectly

  /** A coroutine function decorated as an event handler. */
  class Handler {
    const funcName: string
    const isCoroutine: bool
    var isEventHandler: bool
    /** `__cog_event_handler_names__`: the event names with whether each was
        given explicitly. */
    var eventNames: seq<(string, bool)>

    constructor (funcName: string, isCoroutine: bool)
      ensures this.funcName == funcName && this.isCoroutine == isCoroutine
      ensures !isEventHandler && eventNames == []
    {
      this.funcName := funcName;
      this.isCoroutine := isCoroutine;
      isEventHandler := false;
      eventNames := [];
    }
  }

  /** The entry one decoration records. */
  function EventEntry(event: EventArg, funcName: string): (e: (string, bool))
    ensures e.1 <==> event.EventName?
    ensures e.0 == if event.EventName? then event.name else funcName
  {
    if event.EventName? then (event.name, true) else (funcName, false)
  }

  /** `Cog.event(event)` applied to `coro`. */
  method Event(event: EventArg, coro: Handler) returns (r: Option<Exc>)
    modifies coro
    ensures !coro.isCoroutine ==>
      r == Some(TypeError("the decorated function must be a coroutine")) && unchanged(coro)
    ensures coro.isCoroutine ==>
      r == None && coro.isEventHandler &&
      coro.eventNames == old(coro.eventNames) + [EventEntry(event, coro.funcName)]
  {
    if !coro.isCoroutine {
      return Some(TypeError("the decorated function must be a coroutine"));
    }
    var name, nameDefined;
    if event.DecoratedDirectly? || event.NoEvent? {
      name, nameDefined := coro.funcName, false;
    } else {
      name, nameDefined := event.name, true;
    }
    coro.isEventHandler := true;
    coro.eventNames := coro.eventNames + [(name, nameDefined)];
    return None;
  }

  /** One entry of `__cog_event_handlers__`: the event name, the method's
      name, and whether the event name was given explicitly. */
  datatype EventHandler = EventHandler(event: string, methodName: string, named: bool)

  /** The prefix stripping `_inject` applies to one handler entry. */
  function StripEventPrefix(h: EventHandler, prefix: string): (r: EventHandler)
    ensures r.methodName == h.methodName && r.named == h.named
    ensures h.named || !StartsWith(h.event, prefix) ==> r == h
    ensures !h.named && StartsWith(h.event, prefix) ==> prefix + r.event == h.event
  {
    if !h.named && StartsWith(h.event, prefix) then
      var r := EventHandler(h.event[|prefix|..], h.methodName, h.named);
      assert prefix + r.event == h.event[..|prefix|] + h.event[|prefix|..];
      r
    else h
  }

  // ---------------------------------------------- registration rollback

  /** The keys a registered command takes in a table. */
  function Owned(ci: bool, c: Command): set<string> {
    {Key(ci, c.name)} + Keys(ci, c.aliases)
  }

  /** The registration loop of `_inject` over the cog's top-level commands:
      the table, the first error, and how many commands went in before it. */
  function RegisterEach(m: map<string, Command>, ci: bool, cs: seq<Command>)
    : (r: (map<string, Command>, Option<Error>, nat))
    ensures r.2 <= |cs|
    ensures r.1.None? ==> r.2 == |cs|
    ensures r.1.Some? ==> r.2 < |cs|
    decreases |cs|
  {
    if cs == [] then (m, None, 0)
    else
      var (m1, e) := Add(m, ci, cs[0].name, cs[0].aliases, cs[0]);
      if e.Some? then (m, e, 0)
      else
        var (s, e2, k) := RegisterEach(m1, ci, cs[1..]);
        (s, e2, k + 1)
  }

  /** The undo loop with the commands removed by name. */
  function UnregisterEach(m: map<string, Command>, ci: bool, cs: seq<Command>): map<string, Command>
    decreases |cs|
  {
    if cs == [] then m else UnregisterEach(Remove(m, ci, cs[0].name).0, ci, cs[1..])
  }

  /** The undo loop as written: `remove_command` is handed the command
      object. A plain dict has no such key and pops nothing; a
      case-insensitive one calls `casefold` on it and raises. */
  function UnregisterAsWritten(m: map<string, Command>, ci: bool, earlier: seq<Command>)
    : (map<string, Command>, Option<Exc>)
  {
    if ci && earlier != [] then (m, Some(AttributeError("casefold"))) else (m, None)
  }

  /** The commands take no key of `m`, nor list their own names as
      aliases. */
  predicate FreshOver(m: map<string, Command>, ci: bool, cs: seq<Command>) {
    forall j :: 0 <= j < |cs| ==> Owned(ci, cs[j]) !! m.Keys && cs[j].name !in cs[j].aliases
  }

  /** No two of the commands share a key. */
  predicate Apart(ci: bool, cs: seq<Command>) {
    forall i, j :: 0 <= i < j < |cs| ==> Owned(ci, cs[i]) !! Owned(ci, cs[j])
  }

  /** Every key of every command leads to that command in `s`. */
  predicate Holds(s: map<string, Command>, ci: bool, cs: seq<Command>) {
    forall j, k :: 0 <= j < |cs| && k in Owned(ci, cs[j]) ==> k in s && s[k] == cs[j]
  }

  /** `s` keeps every entry of `m`. */
  predicate Extends(s: map<string, Command>, m: map<string, Command>) {
    forall k :: k in m ==> k in s && s[k] == m[k]
  }

  /** Every key of `s` is a key of `m` or of one of the commands. */
  predicate Covered(s: map<string, Command>, m: map<string, Command>, ci: bool, cs: seq<Command>) {
    forall k :: k in s ==> k in m || exists j :: 0 <= j < |cs| && k in Owned(ci, cs[j])
  }

  /** `s` is `m` with the commands `cs` registered on top: each command
      owns its keys, and no two of them and `m` share a key. */
  predicate Layered(s: map<string, Command>, m: map<string, Command>, ci: bool, cs: seq<Command>) {
    FreshOver(m, ci, cs) && Apart(ci, cs) && Holds(s, ci, cs) && Extends(s, m) && Covered(s, m, ci, cs)
  }

  /** What registering one command `c` that fits does to `m`. */
  predicate AddedOne(m1: map<string, Command>, m: map<string, Command>, ci: bool, c: Command) {
    m1.Keys == m.Keys + Owned(ci, c) && Owned(ci, c) !! m.Keys && c.name !in c.aliases &&
    Extends(m1, m) && (forall k :: k in Owned(ci, c) ==> m1[k] == c)
  }

  lemma AddedOneOfFits(m: map<string, Command>, ci: bool, c: Command)
    requires Fits(m, ci, c.name, c.aliases)
    ensures AddedOne(Add(m, ci, c.name, c.aliases, c).0, m, ci, c)
  {
    var m1 := Add(m, ci, c.name, c.aliases, c).0;
    AddSpec(m, ci, c.name, c.aliases, c);
    FitsDisjoint(m, ci, c.name, c.aliases);
    forall k | k in Owned(ci, c) ensures m1[k] == c {
      if k != Key(ci, c.name) {
        var i :| 0 <= i < |c.aliases| && k == Key(ci, c.aliases[i]);
        assert c.aliases[i] in c.aliases;
      }
    }
  }

  /** Putting one more command underneath a layering. */
  lemma LayerCons(s: map<string, Command>, m1: map<string, Command>, m: map<string, Command>,
                  ci: bool, c: Command, rest: seq<Command>)
    requires AddedOne(m1, m, ci, c) && Layered(s, m1, ci, rest)
    ensures Layered(s, m, ci, [c] + rest)
  {
    ConsFresh(m1, m, ci, c, rest);
    ConsApart(m1, m, ci, c, rest);
    ConsHolds(s, m1, m, ci, c, rest);
    ConsCovered(s, m1, m, ci, c, rest);
  }

  lemma ConsFresh(m1: map<string, Command>, m: map<string, Command>, ci: bool, c: Command, rest: seq<Command>)
    requires AddedOne(m1, m, ci, c) && FreshOver(m1, ci, rest)
    ensures FreshOver(m, ci, [c] + rest)
  {
    var done := [c] + rest;
    forall j | 0 <= j < |done| ensures Owned(ci, done[j]) !! m.Keys && done[j].name !in done[j].aliases {
      if j > 0 {
        assert done[j] == rest[j - 1];
      }
    }
  }

  lemma ConsApart(m1: map<string, Command>, m: map<string, Command>, ci: bool, c: Command, rest: seq<Command>)
    requires AddedOne(m1, m, ci, c) && FreshOver(m1, ci, rest) && Apart(ci, rest)
    ensures Apart(ci, [c] + rest)
  {
    var done := [c] + rest;
    forall i, j | 0 <= i < j < |done| ensures Owned(ci, done[i]) !! Owned(ci, done[j]) {
      assert done[j] == rest[j - 1];
      if i > 0 {
        assert done[i] == rest[i - 1];
      } else {
        assert Owned(ci, rest[j - 1]) !! m1.Keys;
      }
    }
  }

  lemma ConsHolds(s: map<string, Command>, m1: map<string, Command>, m: map<string, Command>,
                  ci: bool, c: Command, rest: seq<Command>)
    requires AddedOne(m1, m, ci, c) && Holds(s, ci, rest) && Extends(s, m1)
    ensures Holds(s, ci, [c] + rest)
  {
    var done := [c] + rest;
    forall j, k | 0 <= j < |done| && k in Owned(ci, done[j]) ensures k in s && s[k] == done[j] {
      if j > 0 {
        assert done[j] == rest[j - 1];
      } else {
        assert k in m1;
      }
    }
  }

  lemma ConsCovered(s: map<string, Command>, m1: map<string, Command>, m: map<string, Command>,
                    ci: bool, c: Command, rest: seq<Command>)
    requires AddedOne(m1, m, ci, c) && Covered(s, m1, ci, rest)
    ensures Covered(s, m, ci, [c] + rest)
  {
    var done := [c] + rest;
    forall k | k in s ensures k in m || exists j :: 0 <= j < |done| && k in Owned(ci, done[j]) {
      if k !in m1 {
        var j :| 0 <= j < |rest| && k in Owned(ci, rest[j]);
        assert done[j + 1] == rest[j];
      } else if k !in m {
        assert k in Owned(ci, done[0]);
      }
    }
  }

  lemma {:induction false} RegisterEachLayers(m: map<string, Command>, ci: bool, cs: seq<Command>)
    ensures Layered(RegisterEach(m, ci, cs).0, m, ci, cs[..RegisterEach(m, ci, cs).2])
    decreases |cs|
  {
    if cs == [] {
      return;
    }
    var c := cs[0];
    AddOutcome(m, ci, c);
    if !Fits(m, ci, c.name, c.aliases) {
      RegisterEachRefused(m, ci, cs);
    } else {
      RegisterEachLayers(Add(m, ci, c.name, c.aliases, c).0, ci, cs[1..]);
      RegisterEachAccepted(m, ci, cs);
    }
  }

  /** A first command that does not fit stops the loop with nothing
      registered. */
  lemma RegisterEachRefused(m: map<string, Command>, ci: bool, cs: seq<Command>)
    requires cs != [] && Add(m, ci, cs[0].name, cs[0].aliases, cs[0]).1.Some?
    ensures Layered(RegisterEach(m, ci, cs).0, m, ci, cs[..RegisterEach(m, ci, cs).2])
  {
    assert RegisterEach(m, ci, cs).0 == m && RegisterEach(m, ci, cs).2 == 0;
    assert cs[..0] == [];
  }

  /** A first command that fits goes underneath the layering the rest of
      the loop builds. */
  lemma RegisterEachAccepted(m: map<string, Command>, ci: bool, cs: seq<Command>)
    requires cs != [] && Fits(m, ci, cs[0].name, cs[0].aliases)
    requires var m1 := Add(m, ci, cs[0].name, cs[0].aliases, cs[0]).0;
      Layered(RegisterEach(m1, ci, cs[1..]).0, m1, ci, cs[1..][..RegisterEach(m1, ci, cs[1..]).2])
    ensures Layered(RegisterEach(m, ci, cs).0, m, ci, cs[..RegisterEach(m, ci, cs).2])
  {
    var c := cs[0];
    AddOutcome(m, ci, c);
    AddedOneOfFits(m, ci, c);
    var m1 := Add(m, ci, c.name, c.aliases, c).0;
    var r := RegisterEach(m1, ci, cs[1..]);
    assert RegisterEach(m, ci, cs) == (r.0, r.1, r.2 + 1);
    LayerStep(r.0, m1, m, ci, cs, r.2);
  }

  /** Registering one command succeeds exactly when it fits. */
  lemma AddOutcome(m: map<string, Command>, ci: bool, c: Command)
    ensures Add(m, ci, c.name, c.aliases, c).1.None? <==> Fits(m, ci, c.name, c.aliases)
  {
    AddSpec(m, ci, c.name, c.aliases, c);
  }

  /** The layering of the commands after the first, with the first put
      underneath. */
  lemma LayerStep(s: map<string, Command>, m1: map<string, Command>, m: map<string, Command>,
                  ci: bool, cs: seq<Command>, k: nat)
    requires cs != [] && k < |cs|
    requires AddedOne(m1, m, ci, cs[0]) && Layered(s, m1, ci, cs[1..][..k])
    ensures Layered(s, m, ci, cs[..k + 1])
  {
    assert cs[..k + 1] == [cs[0]] + cs[1..][..k];
    LayerCons(s, m1, m, ci, cs[0], cs[1..][..k]);
  }

  /** Removing the first command of a layering by its name. */
  lemma LayerUncons(s: map<string, Command>, m: map<string, Command>, ci: bool, cs: seq<Command>)
    requires cs != [] && Layered(s, m, ci, cs)
    ensures Layered(Remove(s, ci, cs[0].name).0, m, ci, cs[1..])
  {
    var c := cs[0];
    assert Key(ci, c.name) in Owned(ci, c);
    RemoveSpec(s, ci, c.name);
    var s1 := Remove(s, ci, c.name).0;
    assert s1.Keys == s.Keys - Owned(ci, c);
    assert forall k :: k in s1 ==> s1[k] == s[k];
    UnconsFreshApart(m, ci, cs);
    UnconsHolds(s, s1, ci, cs);
    UnconsExtends(s, s1, m, ci, cs);
    UnconsCovered(s, s1, m, ci, cs);
  }

  lemma UnconsFreshApart(m: map<string, Command>, ci: bool, cs: seq<Command>)
    requires cs != [] && FreshOver(m, ci, cs) && Apart(ci, cs)
    ensures FreshOver(m, ci, cs[1..]) && Apart(ci, cs[1..])
  {
    var rest := cs[1..];
    forall j | 0 <= j < |rest| ensures Owned(ci, rest[j]) !! m.Keys && rest[j].name !in rest[j].aliases {
      assert rest[j] == cs[j + 1];
    }
    forall i, j | 0 <= i < j < |rest| ensures Owned(ci, rest[i]) !! Owned(ci, rest[j]) {
      assert rest[i] == cs[i + 1] && rest[j] == cs[j + 1];
    }
  }

  lemma UnconsHolds(s: map<string, Command>, s1: map<string, Command>, ci: bool, cs: seq<Command>)
    requires cs != [] && Apart(ci, cs) && Holds(s, ci, cs)
    requires s1.Keys == s.Keys - Owned(ci, cs[0]) && forall k :: k in s1 ==> s1[k] == s[k]
    ensures Holds(s1, ci, cs[1..])
  {
    var rest := cs[1..];
    forall j, k | 0 <= j < |rest| && k in Owned(ci, rest[j]) ensures k in s1 && s1[k] == rest[j] {
      assert rest[j] == cs[j + 1];
      assert Owned(ci, cs[0]) !! Owned(ci, cs[j + 1]);
    }
  }

  lemma UnconsExtends(s: map<string, Command>, s1: map<string, Command>, m: map<string, Command>,
                      ci: bool, cs: seq<Command>)
    requires cs != [] && FreshOver(m, ci, cs) && Extends(s, m)
    requires s1.Keys == s.Keys - Owned(ci, cs[0]) && forall k :: k in s1 ==> s1[k] == s[k]
    ensures Extends(s1, m)
  {
    assert Owned(ci, cs[0]) !! m.Keys;
  }

  lemma UnconsCovered(s: map<string, Command>, s1: map<string, Command>, m: map<string, Command>,
                      ci: bool, cs: seq<Command>)
    requires cs != [] && Covered(s, m, ci, cs)
    requires s1.Keys == s.Keys - Owned(ci, cs[0])
    ensures Covered(s1, m, ci, cs[1..])
  {
    var rest := cs[1..];
    forall k | k in s1 ensures k in m || exists j :: 0 <= j < |rest| && k in Owned(ci, rest[j]) {
      if k !in m {
        var j :| 0 <= j < |cs| && k in Owned(ci, cs[j]);
        assert j != 0;
        assert rest[j - 1] == cs[j];
      }
    }
  }

  lemma {:induction false} UnregisterEachRestores(s: map<string, Command>, m: map<string, Command>,
                                                   ci: bool, cs: seq<Command>)
    requires Layered(s, m, ci, cs)
    ensures UnregisterEach(s, ci, cs) == m
    decreases |cs|
  {
    if cs == [] {
      assert s.Keys == m.Keys;
      assert s == m;
    } else {
      LayerUncons(s, m, ci, cs);
      UnregisterEachRestores(Remove(s, ci, cs[0].name).0, m, ci, cs[1..]);
    }
  }

  /** Undoing by name after a failed registration puts the table back
      exactly as it was before the cog was injected. */
  lemma RegisterRollbackRestores(m: map<string, Command>, ci: bool, cs: seq<Command>)
    ensures var (s, e, k) := RegisterEach(m, ci, cs);
      e.Some? ==> UnregisterEach(s, ci, cs[..k]) == m
  {
    RegisterEachLayers(m, ci, cs);
    var (s, e, k) := RegisterEach(m, ci, cs);
    UnregisterEachRestores(s, m, ci, cs[..k]);
  }

  /** As written, the undo loop leaves the commands registered before the
      failing one in the table: with `x` taken, injecting `a` and then `x`
      fails on `x` and keeps `a`. Undoing by name removes it. */
  lemma UnregisterAsWrittenKeepsCommands(a: Command, b: Command, x: Command)
    requires a.name == "a" && a.aliases == [] && b.name == "x" && b.aliases == []
    ensures var m := map["x" := x];
      var (s, e, k) := RegisterEach(m, false, [a, b]);
      e == Some(NameTaken("x")) && k == 1 &&
      UnregisterAsWritten(s, false, [a]).0 == map["x" := x, "a" := a] &&
      UnregisterAsWritten(s, false, [a]).0 != m &&
      UnregisterEach(s, false, [a]) == m
  {
    var m := map["x" := x];
    assert Key(false, "a") == "a" && Key(false, "x") == "x";
    assert Keys(false, []) == {};
    assert Fits(m, false, "a", []);
    AddSpec(m, false, "a", [], a);
    var m1 := Add(m, false, "a", [], a).0;
    assert m1 == map["x" := x, "a" := a];
    assert !Fits(m1, false, "x", []);
    AddSpec(m1, false, "x", [], b);
    assert [a, b][1..] == [b] && [b][1..] == [];
    assert RegisterEach(m1, false, [b]) == (m1, Some(NameTaken("x")), 0);
    assert RegisterEach(m, false, [a, b]) == (m1, Some(NameTaken("x")), 1);
    assert "a" in m1 && "a" !in m;
    RegisterRollbackRestores(m, false, [a, b]);
    assert [a, b][..1] == [a];
  }

  /** Registering a list in two parts: the second part is registered on the
      table the first part left, unless the first part already failed. */
  lemma {:induction false} RegisterEachAppend(m: map<string, Command>, ci: bool,
                                              xs: seq<Command>, ys: seq<Command>)
    ensures var (s, e, k) := RegisterEach(m, ci, xs);
      RegisterEach(m, ci, xs + ys) ==
        if e.Some? then (s, e, k)
        else var (s2, e2, k2) := RegisterEach(s, ci, ys); (s2, e2, k + k2)
    decreases |xs|
  {
    if xs == [] {
      assert xs + ys == ys;
    } else {
      assert (xs + ys)[0] == xs[0] && (xs + ys)[1..] == xs[1..] + ys;
      RegisterEachCons(m, ci, xs);
      RegisterEachCons(m, ci, xs + ys);
      var a := Add(m, ci, xs[0].name, xs[0].aliases, xs[0]);
      if a.1.None? {
        RegisterEachAppend(a.0, ci, xs[1..], ys);
      }
    }
  }

  /** One step of the registration loop: a refused first command stops it
      with nothing registered, an accepted one counts towards the rest. */
  lemma RegisterEachCons(m: map<string, Command>, ci: bool, cs: seq<Command>)
    requires cs != []
    ensures var a := Add(m, ci, cs[0].name, cs[0].aliases, cs[0]);
      var r := RegisterEach(a.0, ci, cs[1..]);
      RegisterEach(m, ci, cs) == if a.1.Some? then (m, a.1, 0) else (r.0, r.1, r.2 + 1)
  {
  }

  /** A registration that fails on a prefix fails the same way on the
      whole list. */
  lemma RegisterFailsEarly(m: map<string, Command>, ci: bool, xs: seq<Command>, ys: seq<Command>)
    requires xs <= ys && RegisterEach(m, ci, xs).1.Some?
    ensures RegisterEach(m, ci, ys) == RegisterEach(m, ci, xs)
    ensures xs[..RegisterEach(m, ci, xs).2] == ys[..RegisterEach(m, ci, xs).2]
  {
    RegisterEachAppend(m, ci, xs, ys[|xs|..]);
    assert xs + ys[|xs|..] == ys;
  }

  lemma RegisterEachOne(m: map<string, Command>, ci: bool, c: Command)
    ensures var (s, e) := Add(m, ci, c.name, c.aliases, c);
      RegisterEach(m, ci, [c]) == (s, e, if e.Some? then 0 else 1)
  {
    AddSpec(m, ci, c.name, c.aliases, c);
    assert [c][1..] == [];
  }

  /** Unregistering a list in two parts. */
  lemma {:induction false} UnregisterEachAppend(m: map<string, Command>, ci: bool,
                                                xs: seq<Command>, ys: seq<Command>)
    ensures UnregisterEach(m, ci, xs + ys) == UnregisterEach(UnregisterEach(m, ci, xs), ci, ys)
    decreases |xs|
  {
    if xs == [] {
      assert xs + ys == ys;
    } else {
      assert (xs + ys)[0] == xs[0] && (xs + ys)[1..] == xs[1..] + ys;
      UnregisterEachAppend(Remove(m, ci, xs[0].name).0, ci, xs[1..], ys);
    }
  }

  /** Taking every command back out by name after they all went in gives
      the table back: `_eject` undoes a successful `_inject`. */
  lemma RegisterUnregisterRoundTrip(m: map<string, Command>, ci: bool, cs: seq<Command>)
    ensures var (s, e, k) := RegisterEach(m, ci, cs);
      e.None? ==> UnregisterEach(s, ci, cs) == m
  {
    RegisterEachLayers(m, ci, cs);
    var (s, e, k) := RegisterEach(m, ci, cs);
    if e.None? {
      assert cs[..k] == cs;
      UnregisterEachRestores(s, m, ci, cs);
    }
  }

  // ------------------------------------------------------------ the cog

  /** The commands of `cs` that have no parent, in order. */
  function TopLevel(cs: seq<Command>): (r: seq<Command>)
    reads set c | c in cs
    ensures |r| <= |cs|
    ensures forall c :: c in r ==> c in cs && c.parent == null
    ensures forall i :: 0 <= i < |cs| && cs[i].parent == null ==> cs[i] in r
    decreases |cs|
  {
    if cs == [] then []
    else
      var last := cs[|cs| - 1];
      TopLevel(cs[..|cs| - 1]) + (if last.parent == null then [last] else [])
  }

  lemma {:induction false} TopLevelAppend(xs: seq<Command>, ys: seq<Command>)
    ensures TopLevel(xs + ys) == TopLevel(xs) + TopLevel(ys)
    decreases |ys|
  {
    if ys == [] {
      assert xs + ys == xs;
    } else {
      var n := |ys| - 1;
      assert (xs + ys)[..|xs + ys| - 1] == xs + ys[..n];
      TopLevelAppend(xs, ys[..n]);
    }
  }

  /** `TopLevel` of every prefix of `cs`, each one the last extended by
      one command or by none. */
  lemma TopLevelPrefixes(cs: seq<Command>) returns (ps: seq<seq<Command>>)
    ensures |ps| == |cs| + 1 && ps[|cs|] == TopLevel(cs) && ps[0] == []
    ensures forall i :: 0 <= i < |cs| ==>
      ps[i + 1] == ps[i] + (if cs[i].parent == null then [cs[i]] else [])
    ensures forall i :: 0 <= i <= |cs| ==> ps[i] <= ps[|cs|]
  {
    ps := [[]];
    var i := 0;
    while i < |cs|
      invariant 0 <= i <= |cs|
      invariant |ps| == i + 1 && ps[0] == [] && ps[i] == TopLevel(cs[..i])
      invariant forall j :: 0 <= j < i ==>
        ps[j + 1] == ps[j] + (if cs[j].parent == null then [cs[j]] else [])
    {
      assert cs[..i + 1][..i] == cs[..i];
      var next := TopLevel(cs[..i + 1]);
      ps := ps + [next];
      i := i + 1;
    }
    assert cs[..i] == cs;
    forall j | 0 <= j < |ps| - 1 ensures ps[j] <= ps[j + 1] {
      assert ps[j + 1] == ps[j] + (if cs[j].parent == null then [cs[j]] else []);
    }
    forall j | 0 <= j <= |cs| ensures ps[j] <= ps[|cs|] {
      ChainPrefix(ps, j);
    }
  }

  /** In a list each entry of which extends the one before, every entry
      is a prefix of the last. */
  lemma {:induction false} ChainPrefix(ps: seq<seq<Command>>, i: nat)
    requires i < |ps|
    requires forall j :: 0 <= j < |ps| - 1 ==> ps[j] <= ps[j + 1]
    ensures ps[i] <= ps[|ps| - 1]
    decreases |ps| - i
  {
    if i < |ps| - 1 {
      ChainPrefix(ps, i + 1);
    }
  }

  /** Whether `GroupMixin.walk_commands` on the table `t` yields `x`,
      following `depth` levels of groups down. A table iterates over a
      set, so only membership is modelled, not order. */
  predicate Yields(t: CommandTable, depth: nat, x: Command)
    reads *
    decreases depth
  {
    exists k :: k in t.entries &&
      (t.entries[k] == x ||
       (depth > 0 && t.entries[k].subcommands != null && Yields(t.entries[k].subcommands, depth - 1, x)))
  }

  /** Every registered command is yielded, and following one more level
      down yields everything already yielded. */
  lemma {:induction false} YieldsGrow(t: CommandTable, depth: nat, x: Command)
    ensures (exists k :: k in t.entries && t.entries[k] == x) ==> Yields(t, depth, x)
    ensures Yields(t, depth, x) ==> Yields(t, depth + 1, x)
    decreases depth
  {
    if Yields(t, depth, x) {
      var k :| k in t.entries &&
        (t.entries[k] == x ||
         (depth > 0 && t.entries[k].subcommands != null && Yields(t.entries[k].subcommands, depth - 1, x)));
      if t.entries[k] != x {
        YieldsGrow(t.entries[k].subcommands, depth - 1, x);
      }
    }
  }

  /** A cog instance: its name, its commands (`__cog_commands__`, in
      definition order, subcommands included), its event handler entries,
      and the `bot_check` / `bot_check_once` it overrides, if any. */
  class Cog {
    const name: string
    const commands: seq<Command>
    var handlers: seq<EventHandler>
    const botCheck: Option<CheckId>
    const botCheckOnce: Option<CheckId>

    constructor (name: string, commands: seq<Command>, handlers: seq<EventHandler>,
                 botCheck: Option<CheckId>, botCheckOnce: Option<CheckId>)
      ensures this.name == name && this.commands == commands && this.handlers == handlers
      ensures this.botCheck == botCheck && this.botCheckOnce == botCheckOnce
    {
      this.name := name;
      this.commands := commands;
      this.handlers := handlers;
      this.botCheck := botCheck;
      this.botCheckOnce := botCheckOnce;
    }

    /** What a command's `cog` attribute holds once it belongs to this cog. */
    function Ref(): CogRef {
      CogRef(name)
    }

    /** `get_commands`: the cog's commands without a parent, subcommands
        left out. */
    function GetCommands(): (r: seq<Command>)
      reads set c | c in commands
      ensures |r| <= |commands|
      ensures forall c :: c in r ==> c in commands && c.parent == null
      ensures forall i :: 0 <= i < |commands| && commands[i].parent == null ==> commands[i] in r
    {
      TopLevel(commands)
    }

    /** `walk_commands`: every top-level command, and below each group
        what its own walk yields, `depth` levels down. */
    predicate WalkYields(depth: nat, x: Command)
      reads *
    {
      exists i :: 0 <= i < |commands| && commands[i].parent == null &&
        (commands[i] == x || (commands[i].subcommands != null && Yields(commands[i].subcommands, depth, x)))
    }

    /** The first loop of `_inject`: every command is tagged with the cog
        and every top-level one is registered in `table`, until one cannot
        be. Returns that command's error and the top-level commands
        registered before it. */
    method RegisterCommands(table: CommandTable) returns (e: Option<Exc>, done: seq<Command>)
      requires table.owner == null
      modifies table, set c | c in commands
      ensures forall c :: c in commands ==> c.parent == old(c.parent)
      ensures var (s, err, k) := RegisterEach(old(table.entries), table.caseInsensitive, old(GetCommands()));
        table.entries == s && done == old(GetCommands())[..k] &&
        e == (if err.Some? then Some(Command(err.value)) else None)
      ensures e.None? ==> forall c :: c in commands ==> c.cog == Some(Ref())
      ensures forall c :: c in commands ==> c.cog == old(c.cog) || c.cog == Some(Ref())
    {
      ghost var prefixes := TopLevelPrefixes(commands);
      ghost var isTop := seq(|commands|, j requires 0 <= j < |commands| reads commands => commands[j].parent == null);
      e, done := RegisterLoop(table, prefixes, isTop);
    }

    /** `RegisterCommands` over the top-level flags and the registered
        prefixes computed beforehand. */
    method RegisterLoop(table: CommandTable, ghost prefixes: seq<seq<Command>>, ghost isTop: seq<bool>)
      returns (e: Option<Exc>, done: seq<Command>)
      requires table.owner == null
      requires |prefixes| == |commands| + 1 && |isTop| == |commands| && prefixes[0] == []
      requires forall j :: 0 <= j < |commands| ==> (isTop[j] <==> commands[j].parent == null)
      requires forall j :: 0 <= j < |commands| ==>
        prefixes[j + 1] == prefixes[j] + (if isTop[j] then [commands[j]] else [])
      requires forall j :: 0 <= j <= |commands| ==> prefixes[j] <= prefixes[|commands|]
      modifies table, set c | c in commands
      ensures forall c :: c in commands ==> c.parent == old(c.parent)
      ensures var (s, err, k) := RegisterEach(old(table.entries), table.caseInsensitive, prefixes[|commands|]);
        table.entries == s && done == prefixes[|commands|][..k] &&
        e == (if err.Some? then Some(Command(err.value)) else None)
      ensures e.None? ==> forall c :: c in commands ==> c.cog == Some(Ref())
      ensures forall c :: c in commands ==> c.cog == old(c.cog) || c.cog == Some(Ref())
    {
      var ci := table.caseInsensitive;
      ghost var m0 := table.entries;
      ghost var n := |commands|;
      ghost var tops := prefixes[n];
      done := [];
      var i := 0;
      while i < |commands|
        invariant 0 <= i <= n
        invariant done == prefixes[i] && done <= tops
        invariant forall c :: c in commands ==> c.parent == old(c.parent)
        invariant forall j :: 0 <= j < i ==> commands[j].cog == Some(Ref())
        invariant forall c :: c in commands ==> c.cog == old(c.cog) || c.cog == Some(Ref())
        invariant RegisterEach(m0, ci, done) == (table.entries, None, |done|)
      {
        var command := commands[i];
        command.cog := Some(Ref());
        if command.parent == null {
          assert isTop[i] && prefixes[i + 1] == done + [command];
          e := RegisterStep(table, command, m0, done);
          if e.Some? {
            RegisterFailsEarly(m0, ci, done + [command], tops);
            return;
          }
          done := done + [command];
        }
        i := i + 1;
      }
      assert tops[..|tops|] == tops;
      e := None;
    }

    /** `_inject(bot)`: tags every command with the cog, registers the
        top-level ones with the bot, adds the overridden bot checks and
        strips the bot's event prefix (`eventPrefix`) from the handler
        names that were not given explicitly. A registration that fails
        is undone by name, so the bot's table is left as it was, and the
        error is raised. */
    method Inject(bot: Bot, eventPrefix: string) returns (r: Option<Exc>)
      requires bot.commands.owner == null
      modifies this, bot, bot.commands, set c | c in commands
      ensures forall c :: c in commands ==> c.parent == old(c.parent)
      ensures var (s, e, k) := RegisterEach(old(bot.commands.entries), bot.commands.caseInsensitive,
                                            old(GetCommands()));
        (r.Some? <==> e.Some?) &&
        (e.Some? ==> r == Some(Command(e.value)) && bot.commands.entries == old(bot.commands.entries)) &&
        (e.None? ==> bot.commands.entries == s)
      ensures r.Some? ==>
        bot.checks == old(bot.checks) && bot.checkOnce == old(bot.checkOnce) && handlers == old(handlers)
      ensures r.Some? ==> forall c :: c in commands ==> c.cog == old(c.cog) || c.cog == Some(Ref())
      ensures r.None? ==> forall c :: c in commands ==> c.cog == Some(Ref())
      ensures r.None? ==>
        bot.checks == old(bot.checks) + (if botCheck.Some? then [botCheck.value] else []) &&
        bot.checkOnce == old(bot.checkOnce) + (if botCheckOnce.Some? then [botCheckOnce.value] else [])
      ensures r.None? ==>
        |handlers| == |old(handlers)| &&
        forall i :: 0 <= i < |handlers| ==> handlers[i] == StripEventPrefix(old(handlers)[i], eventPrefix)
      ensures bot.extensions == old(bot.extensions)
    {
      var table := bot.commands;
      ghost var m0 := table.entries;
      ghost var tops := GetCommands();
      var done;
      r, done := RegisterCommands(table);
      if r.Some? {
        RegisterRollbackRestores(m0, table.caseInsensitive, tops);
        UnregisterAll(table, done);
        return;
      }
      if botCheck.Some? {
        bot.AddCheck(botCheck.value, false);
      }
      if botCheckOnce.Some? {
        bot.AddCheck(botCheckOnce.value, true);
      }
      handlers := StripPrefixes(handlers, eventPrefix);
    }

    /** `_eject(bot)`: takes the cog's top-level commands out of the bot's
        table by name and removes the overridden bot checks. */
    method Eject(bot: Bot)
      modifies bot, bot.commands
      ensures bot.commands.entries ==
              UnregisterEach(old(bot.commands.entries), bot.commands.caseInsensitive, GetCommands())
      ensures bot.checks == (if botCheck.Some? then RemoveFirst(old(bot.checks), botCheck.value)
                             else old(bot.checks))
      ensures bot.checkOnce == (if botCheckOnce.Some? then RemoveFirst(old(bot.checkOnce), botCheckOnce.value)
                                else old(bot.checkOnce))
      ensures bot.extensions == old(bot.extensions)
    {
      var table := bot.commands;
      ghost var m0 := table.entries;
      ghost var prefixes := TopLevelPrefixes(commands);
      var i := 0;
      while i < |commands|
        invariant 0 <= i <= |commands|
        invariant table.entries == UnregisterEach(m0, table.caseInsensitive, prefixes[i])
        invariant unchanged(bot)
      {
        if commands[i].parent == null {
          UnregisterStep(table, commands[i], m0, prefixes[i]);
        } else {
          assert prefixes[i + 1] == prefixes[i];
        }
        i := i + 1;
      }
      if botCheck.Some? {
        bot.RemoveCheck(botCheck.value, false);
      }
      if botCheckOnce.Some? {
        bot.RemoveCheck(botCheckOnce.value, true);
      }
    }
  }

  /** One command of the loop of `_eject`, taken out by name after the ones
      before it. */
  method UnregisterStep(table: CommandTable, command: Command, ghost m0: map<string, Command>,
                        ghost done: seq<Command>)
    requires table.entries == UnregisterEach(m0, table.caseInsensitive, done)
    modifies table
    ensures table.entries == UnregisterEach(m0, table.caseInsensitive, done + [command])
  {
    UnregisterEachAppend(m0, table.caseInsensitive, done, [command]);
    assert [command][1..] == [];
    var _ := table.RemoveCommand(command.name);
  }

  /** One top-level command of the first loop of `_inject`, registered on
      top of the ones before it. */
  method RegisterStep(table: CommandTable, command: Command, ghost m0: map<string, Command>,
                      ghost done: seq<Command>) returns (e: Option<Exc>)
    requires table.owner == null
    requires RegisterEach(m0, table.caseInsensitive, done) == (table.entries, None, |done|)
    modifies table, command
    ensures command.parent == old(command.parent) && command.subcommands == old(command.subcommands) &&
            command.enabled == old(command.enabled) && command.checks == old(command.checks) &&
            command.cog == old(command.cog)
    ensures var (s, err, k) := RegisterEach(m0, table.caseInsensitive, done + [command]);
      table.entries == s && k == (if err.Some? then |done| else |done| + 1) &&
      e == (if err.Some? then Some(Command(err.value)) else None)
  {
    ghost var before := table.entries;
    e := table.AddCommand(command);
    ghost var added := Add(before, table.caseInsensitive, command.name, command.aliases, command);
    assert table.entries == added.0;
    assert e == (if added.1.Some? then Some(Command(added.1.value)) else None);
    RegisterEachAppend(m0, table.caseInsensitive, done, [command]);
    RegisterEachOne(before, table.caseInsensitive, command);
    assert RegisterEach(m0, table.caseInsensitive, done + [command]) ==
           (added.0, added.1, if added.1.Some? then |done| else |done| + 1);
  }

  /** The handler list `_inject` rebuilds, each entry stripped of the
      event prefix where it applies. */
  method StripPrefixes(hs: seq<EventHandler>, prefix: string) returns (r: seq<EventHandler>)
    ensures |r| == |hs|
    ensures forall i :: 0 <= i < |hs| ==> r[i] == StripEventPrefix(hs[i], prefix)
    ensures forall i :: 0 <= i < |hs| ==> r[i].methodName == hs[i].methodName && r[i].named == hs[i].named
    ensures forall i :: 0 <= i < |hs| && (hs[i].named || !StartsWith(hs[i].event, prefix)) ==> r[i] == hs[i]
    ensures forall i :: 0 <= i < |hs| && !hs[i].named && StartsWith(hs[i].event, prefix) ==>
      prefix + r[i].event == hs[i].event
  {
    r := [];
    var j := 0;
    while j < |hs|
      invariant 0 <= j <= |hs|
      invariant |r| == j
      invariant forall k :: 0 <= k < j ==> r[k] == StripEventPrefix(hs[k], prefix)
    {
      r := r + [StripEventPrefix(hs[j], prefix)];
      j := j + 1;
    }
  }

  /** The undo loop of `_inject`, by name. */
  method UnregisterAll(table: CommandTable, cs: seq<Command>)
    modifies table
    ensures table.entries == UnregisterEach(old(table.entries), table.caseInsensitive, cs)
  {
    ghost var target := UnregisterEach(table.entries, table.caseInsensitive, cs);
    var j := 0;
    while j < |cs|
      invariant 0 <= j <= |cs|
      invariant UnregisterEach(table.entries, table.caseInsensitive, cs[j..]) == target
    {
      assert cs[j..][1..] == cs[j + 1..];
      var _ := table.RemoveCommand(cs[j].name);
      j := j + 1;
    }
  }

  /** The walk yields exactly the top-level commands and what lies below
      them: every top-level command, every command registered in a
      top-level group, and nothing that is neither top-level nor below a
      top-level group. */
  lemma WalkCommandsSpec(cog: Cog, depth: nat, x: Command)
    ensures x in cog.commands && x.parent == null ==> cog.WalkYields(depth, x)
    ensures forall i, k ::
      (0 <= i < |cog.commands| && cog.commands[i].parent == null && cog.commands[i].subcommands != null &&
       k in cog.commands[i].subcommands.entries && cog.commands[i].subcommands.entries[k] == x) ==>
      cog.WalkYields(depth, x)
    ensures cog.WalkYields(depth, x) && x !in cog.GetCommands() ==>
      exists i :: 0 <= i < |cog.commands| && cog.commands[i].parent == null &&
        cog.commands[i].subcommands != null && Yields(cog.commands[i].subcommands, depth, x)
  {
    if x in cog.commands && x.parent == null {
      var i :| 0 <= i < |cog.commands| && cog.commands[i] == x;
      assert cog.WalkYields(depth, x);
    }
    forall i, k |
      0 <= i < |cog.commands| && cog.commands[i].parent == null && cog.commands[i].subcommands != null &&
      k in cog.commands[i].subcommands.entries && cog.commands[i].subcommands.entries[k] == x
      ensures cog.WalkYields(depth, x)
    {
      YieldsGrow(cog.commands[i].subcommands, depth, x);
    }
  }
}
