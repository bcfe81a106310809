/** The command bot: extension names, owners, bot-wide checks, the command
    prefix, the dispatch of an invocation, and the table of loaded
    extensions. */
module Bots {
  import opened Wrappers
  import opened PyText
  import opened CommandErrors
  import opened Exceptions
  import opened Checks
  import opened CommandTypes
  import opened CommandsCore

  // ------------------------------------------------------- module names

  /** `_is_submodule(parent, child)`: `child` is `parent` or lies inside it. */
  predicate IsSubmodule(parent: string, child: string) {
    parent == child || StartsWith(child, parent + ".")
  }

  /** Every module is its own submodule, a submodule of a submodule is a
      submodule, and a submodule name is never shorter than its parent's. */
  lemma SubmoduleOrder(a: string, b: string, c: string)
    ensures IsSubmodule(a, a)
    ensures IsSubmodule(a, b) && IsSubmodule(b, c) ==> IsSubmodule(a, c)
    ensures IsSubmodule(a, b) ==> |a| <= |b| && b[..|a|] == a
    ensures IsSubmodule(a, b) && IsSubmodule(b, a) ==> a == b
  {
    if IsSubmodule(a, b) && a != b {
      assert b[..|a|] == b[..|a + "."|][..|a|] == (a + ".")[..|a|] == a;
    }
    if IsSubmodule(a, b) && IsSubmodule(b, c) && a != b && b != c {
      assert c[..|b|] == b;
      assert c[..|a + "."|] == b[..|a + "."|];
    }
  }

  /** A different name lies inside `parent` exactly when it continues
      `parent` with a dot: sharing a prefix without the dot is not enough. */
  lemma SubmoduleNeedsDot(parent: string, child: string)
    requires parent != child
    ensures IsSubmodule(parent, child) <==>
      |child| > |parent| && child[..|parent|] == parent && child[|parent|] == '.'
  {
    var n := |parent|;
    if IsSubmodule(parent, child) {
      assert child[..n + 1] == parent + ".";
      assert child[..n] == child[..n + 1][..n];
      assert child[n] == child[..n + 1][n];
    }
    if |child| > n && child[..n] == parent && child[n] == '.' {
      assert child[..n + 1] == child[..n] + [child[n]];
    }
  }

  // ------------------------------------------------------------- owners

  /** `owner_id` (`None` or empty when unset) and `owner_ids`. */
  datatype Owners = Owners(ownerId: Option<string>, ownerIds: set<string>)

  /** `owner_id or None`: whether `owner_id` is set to a truthy value. */
  predicate HasOwnerId(o: Owners) {
    o.ownerId.Some? && o.ownerId.value != ""
  }

  /** The owner validation of `Bot.__init__`. */
  function ValidateOwners(ownerId: Option<string>, ownerIds: set<string>): (r: Result<Owners, Exc>)
    ensures r.Err? <==> ownerId.Some? && ownerId.value != "" && ownerIds != {}
    ensures r.Err? ==> r.error == TypeError("Both owner_id and owner_ids are set.")
    ensures r.Ok? ==> r.value == Owners(ownerId, ownerIds)
  {
    if ownerId.Some? && ownerId.value != "" && ownerIds != {} then
      Err(TypeError("Both owner_id and owner_ids are set."))
    else Ok(Owners(ownerId, ownerIds))
  }

  /** `is_owner(user_id)`. */
  function IsOwner(o: Owners, userId: string): bool {
    if HasOwnerId(o) then userId == o.ownerId.value else userId in o.ownerIds
  }

  /** On a bot that passed validation, the owners are the single owner id
      together with the owner ids: at most one of the two is in use. */
  lemma IsOwnerSpec(ownerId: Option<string>, ownerIds: set<string>, userId: string)
    requires ValidateOwners(ownerId, ownerIds).Ok?
    ensures IsOwner(ValidateOwners(ownerId, ownerIds).value, userId) <==>
      (ownerId.Some? && ownerId.value != "" && userId == ownerId.value) || userId in ownerIds
  {
  }

  // ------------------------------------------------------------ prefixes

  /** What `command_prefix` is, or what calling it returned: a string, an
      iterable (as the strings `list()` yields), or any other object
      (named by its class). */
  datatype PrefixValue = PrefixStr(s: string) | PrefixIterable(items: seq<string>) | PrefixOther(className: string)

  /** The normalised prefix: one string or a list of them. */
  datatype Prefix = Single(prefix: string) | Many(prefixes: seq<string>)

  /** The normalisation at the end of `get_prefix`. */
  function NormalisePrefix(ret: PrefixValue): (r: Result<Prefix, Exc>)
    ensures ret.PrefixStr? ==> r == Ok(Single(ret.s))
    ensures ret.PrefixIterable? && ret.items != [] ==> r == Ok(Many(ret.items))
    ensures ret.PrefixIterable? && ret.items == [] ==>
      r == Err(ValueError("Iterable command_prefix must contain at least one prefix"))
    ensures ret.PrefixOther? ==>
      r.Err? && r.error.TypeError? && EndsWith(r.error.msg, ret.className)
  {
    match ret
    case PrefixStr(s) => Ok(Single(s))
    case PrefixIterable(items) =>
      if items == [] then Err(ValueError("Iterable command_prefix must contain at least one prefix"))
      else Ok(Many(items))
    case PrefixOther(name) =>
      Err(TypeError("command_prefix must be plain string, iterable of strings, or callable " +
                    "returning either of these, not " + name))
  }

  /** The prefixes a normalised result offers. */
  function Offered(p: Prefix): seq<string> {
    match p
    case Single(s) => [s]
    case Many(ps) => ps
  }

  /** A successful normalisation always offers at least one prefix, and
      offers exactly the strings it was given. */
  lemma NormalisePrefixOffers(ret: PrefixValue)
    ensures NormalisePrefix(ret).Ok? ==> |Offered(NormalisePrefix(ret).value)| >= 1
    ensures NormalisePrefix(ret).Ok? <==> ret.PrefixStr? || (ret.PrefixIterable? && ret.items != [])
    ensures ret.PrefixStr? ==> Offered(NormalisePrefix(ret).value) == [ret.s]
    ensures ret.PrefixIterable? && ret.items != [] ==> Offered(NormalisePrefix(ret).value) == ret.items
  {
  }

  // ---------------------------------------------------------- invocation

  /** How `Bot.invoke` ended: the command completed, a command error went
      to the command's error dispatch, a `CommandNotFound` went to the
      bot's error dispatch, nothing happened, or an exception escaped. */
  datatype InvokeResult =
    | Completed
    | CommandErrorDispatched(error: Error)
    | NotFoundDispatched(error: Error)
    | NothingToDo
    | Propagated(exc: Exc)

  /** `except CommandError` around the command's invocation. */
  function CatchCommandError(exc: Exc): (r: InvokeResult)
    ensures r.CommandErrorDispatched? <==> exc.Command? && IsCommandError(exc.error)
    ensures r.CommandErrorDispatched? ==> r.error == exc.error
    ensures !r.CommandErrorDispatched? ==> r == Propagated(exc)
  {
    if exc.Command? && IsCommandError(exc.error) then CommandErrorDispatched(exc.error)
    else Propagated(exc)
  }

  function NotFoundMessage(word: string): Error {
    CommandNotFound(Some("Command \"" + word + "\" is not found"))
  }

  // ------------------------------------------------------------ extensions

  /** What the import machinery does for `load_extension(name)`: whether a
      module spec is found, what executing the module raised, whether it
      defines `extension_setup`, and what calling that raised. */
  datatype LoadHooks = LoadHooks(found: bool, execRaised: Option<Cause>, hasSetup: bool,
                                 setupRaised: Option<Cause>)

  /** `load_extension(name)` on the set of loaded extension names. */
  function Load(loaded: set<string>, name: string, h: LoadHooks): (set<string>, Option<Error>) {
    if name in loaded then (loaded, Some(ExtensionAlreadyLoaded(name)))
    else if !h.found then (loaded, Some(ExtensionNotFound(name)))
    else if h.execRaised.Some? then (loaded, Some(ExtensionFailed(name, h.execRaised.value)))
    else if !h.hasSetup then (loaded, Some(ExtensionMissingEntryPoint(name)))
    else if h.setupRaised.Some? then (loaded, Some(ExtensionFailed(name, h.setupRaised.value)))
    else (loaded + {name}, None)
  }

  /** `unload_extension(name)`. */
  function Unload(loaded: set<string>, name: string): (set<string>, Option<Error>) {
    if name !in loaded then (loaded, Some(ExtensionNotLoaded(name)))
    else (loaded - {name}, None)
  }

  /** Loading an extension already loaded fails with
      `ExtensionAlreadyLoaded` before anything else is tried; every failed
      load leaves the loaded set as it was and raises an extension error
      (never a command error); a successful load adds exactly the name. */
  lemma LoadSpec(loaded: set<string>, name: string, h: LoadHooks)
    ensures var (after, e) := Load(loaded, name, h);
      (name in loaded ==> e == Some(ExtensionAlreadyLoaded(name))) &&
      (e.Some? ==> after == loaded && IsExtensionError(e.value) && !IsCommandError(e.value)) &&
      (e.None? <==> name !in loaded && h.found && h.execRaised.None? && h.hasSetup &&
                    h.setupRaised.None?) &&
      (e.None? ==> after == loaded + {name} && name !in loaded)
  {
    var (after, e) := Load(loaded, name, h);
    if e.Some? {
      ExtensionErrorsAreNotCommandErrors(e.value);
    }
  }

  /** Unloading a name not loaded fails with `ExtensionNotLoaded` and
      changes nothing; unloading right after a successful load restores the
      set of loaded extensions. */
  lemma UnloadSpec(loaded: set<string>, name: string, h: LoadHooks)
    ensures name !in loaded <==> Unload(loaded, name) == (loaded, Some(ExtensionNotLoaded(name)))
    ensures name in loaded ==> Unload(loaded, name) == (loaded - {name}, None)
    ensures Load(loaded, name, h).1.None? ==> Unload(Load(loaded, name, h).0, name) == (loaded, None)
  {
  }

  class Bot {
    const owners: Owners
    /** The bot's own table of top-level commands. */
    const commands: CommandTable
    var checks: seq<CheckId>
    var checkOnce: seq<CheckId>
    var extensions: set<string>

    constructor (owners: Owners, caseInsensitive: bool)
      ensures this.owners == owners && checks == [] && checkOnce == [] && extensions == {}
      ensures fresh(commands) && commands.entries == map[] && commands.owner == null
      ensures commands.caseInsensitive == caseInsensitive
    {
      this.owners := owners;
      commands := new CommandTable(caseInsensitive, null);
      checks := [];
      checkOnce := [];
      extensions := {};
    }

    /** `Bot(...)` with its owner validation. */
    static method New(ownerId: Option<string>, ownerIds: set<string>, caseInsensitive: bool)
      returns (r: Result<Bot, Exc>)
      ensures r.Err? <==> ValidateOwners(ownerId, ownerIds).Err?
      ensures r.Err? ==> r.error == ValidateOwners(ownerId, ownerIds).error
      ensures r.Ok? ==>
        fresh(r.value) && r.value.owners == Owners(ownerId, ownerIds) &&
        r.value.checks == [] && r.value.checkOnce == [] && r.value.extensions == {} &&
        r.value.commands.entries == map[] && r.value.commands.caseInsensitive == caseInsensitive
    {
      var v := ValidateOwners(ownerId, ownerIds);
      if v.Err? {
        return Err(v.error);
      }
      var b := new Bot(v.value, caseInsensitive);
      return Ok(b);
    }

    /** `add_check(func, call_once=...)`. */
    method AddCheck(func: CheckId, callOnce: bool)
      modifies this
      ensures callOnce ==> checkOnce == old(checkOnce) + [func] && checks == old(checks)
      ensures !callOnce ==> checks == old(checks) + [func] && checkOnce == old(checkOnce)
      ensures extensions == old(extensions)
    {
      if callOnce {
        checkOnce := checkOnce + [func];
      } else {
        checks := checks + [func];
      }
    }

    /** `remove_check(func, call_once=...)`; an absent check is ignored. */
    method RemoveCheck(func: CheckId, callOnce: bool)
      modifies this
      ensures callOnce ==> checkOnce == RemoveFirst(old(checkOnce), func) && checks == old(checks)
      ensures !callOnce ==> checks == RemoveFirst(old(checks), func) && checkOnce == old(checkOnce)
      ensures extensions == old(extensions)
    {
      if callOnce {
        checkOnce := RemoveFirst(checkOnce, func);
      } else {
        checks := RemoveFirst(checks, func);
      }
    }

    /** `can_run(ctx, call_once=...)`; `run` says what each check does on
        this context. */
    method CanRun(callOnce: bool, run: CheckId -> CheckOutcome<Exc>) returns (r: Result<bool, Exc>)
      ensures r == RunChecks(if callOnce then checkOnce else checks, run)
    {
      var data := if callOnce then checkOnce else checks;
      if |data| == 0 {
        return Ok(true);
      }
      var i := 0;
      while i < |data|
        invariant 0 <= i <= |data|
        invariant RunChecks(data, run) == RunChecks(data[i..], run)
      {
        assert data[i..][1..] == data[i + 1..];
        match run(data[i])
        case Raised(e) => return Err(e);
        case Falsy => return Ok(false);
        case Truthy =>
        i := i + 1;
      }
      return Ok(true);
    }

    /** `is_owner(user_id)`. */
    function IsOwnerOf(userId: string): bool {
      IsOwner(owners, userId)
    }

    /** `invoke(ctx)`: `hasCommand` says whether the context resolved a
        command, `invokedWith` is the word it was invoked with, and
        `commandRaised` what the command's own `invoke` raised. */
    method Invoke(hasCommand: bool, invokedWith: Option<string>, run: CheckId -> CheckOutcome<Exc>,
                  commandRaised: Option<Exc>) returns (r: InvokeResult)
      ensures !hasCommand ==>
        r == (if invokedWith.Some? && invokedWith.value != "" then NotFoundDispatched(NotFoundMessage(invokedWith.value))
              else NothingToDo)
      ensures hasCommand && RunChecks(checkOnce, run).Err? ==> r == CatchCommandError(RunChecks(checkOnce, run).error)
      ensures hasCommand && RunChecks(checkOnce, run) == Ok(false) ==>
        r == CommandErrorDispatched(CheckFailure(Some("The global check once functions failed.")))
      ensures hasCommand && RunChecks(checkOnce, run) == Ok(true) ==>
        r == if commandRaised.None? then Completed else CatchCommandError(commandRaised.value)
    {
      if hasCommand {
        var ok := CanRun(true, run);
        if ok.Err? {
          r := CatchCommandError(ok.error);
        } else if ok.value {
          r := if commandRaised.None? then Completed else CatchCommandError(commandRaised.value);
        } else {
          r := CatchCommandError(Command(CheckFailure(Some("The global check once functions failed."))));
          CheckFailuresAreUserInputErrors(CheckFailure(Some("The global check once functions failed.")));
        }
      } else if invokedWith.Some? && invokedWith.value != "" {
        r := NotFoundDispatched(NotFoundMessage(invokedWith.value));
      } else {
        r := NothingToDo;
      }
    }

    /** `load_extension(name)`. */
    method LoadExtension(name: string, h: LoadHooks) returns (e: Option<Error>)
      modifies this
      ensures (extensions, e) == Load(old(extensions), name, h)
      ensures checks == old(checks) && checkOnce == old(checkOnce)
    {
      if name in extensions {
        return Some(ExtensionAlreadyLoaded(name));
      }
      if !h.found {
        return Some(ExtensionNotFound(name));
      }
      if h.execRaised.Some? {
        return Some(ExtensionFailed(name, h.execRaised.value));
      }
      if !h.hasSetup {
        return Some(ExtensionMissingEntryPoint(name));
      }
      if h.setupRaised.Some? {
        return Some(ExtensionFailed(name, h.setupRaised.value));
      }
      extensions := extensions + {name};
      return None;
    }

    /** `unload_extension(name)`. */
    method UnloadExtension(name: string) returns (e: Option<Error>)
      modifies this
      ensures (extensions, e) == Unload(old(extensions), name)
      ensures checks == old(checks) && checkOnce == old(checkOnce)
    {
      if name !in extensions {
        return Some(ExtensionNotLoaded(name));
      }
      extensions := extensions - {name};
      return None;
    }
  }

  /** Whatever a command invocation raised, only command errors reach the
      command's error dispatch; everything else escapes `invoke`. */
  lemma InvokeDispatchesOnlyCommandErrors(r: InvokeResult, exc: Exc)
    requires r == CatchCommandError(exc)
    ensures r.CommandErrorDispatched? ==> IsCommandError(r.error) && !IsExtensionError(r.error)
    ensures r.Propagated? ==> !(exc.Command? && IsCommandError(exc.error))
  {
    if r.CommandErrorDispatched? {
      ExtensionErrorsAreNotCommandErrors(r.error);
    }
  }
}
