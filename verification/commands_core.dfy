/** The command objects of the commands extension: boolean argument parsing,
    the name-and-alias tables of bots and groups, the parent chain of a
    command and the names derived from it, the help signature, and the
    checks a command runs before it is invoked. */
module CommandsCore {
  import opened Wrappers
  import opened PyText
  import opened PyValues
  import opened CommandTypes
  import opened CommandErrors
  import opened Exceptions
  import opened Checks

  // ------------------------------------------------------- boolean arguments

  const TrueWords: seq<string> := ["yes", "y", "true", "t", "1", "enable", "on"]
  const FalseWords: seq<string> := ["no", "n", "false", "f", "0", "disable", "off"]

  /** `_convert_to_bool(argument)`. */
  function ConvertToBool(argument: string): (r: Result<bool, Error>)
    ensures r == Ok(true) <==> Lower(argument) in TrueWords
    ensures r == Ok(false) <==> Lower(argument) in FalseWords
    ensures r.Err? <==> Lower(argument) !in TrueWords && Lower(argument) !in FalseWords
    ensures r.Err? ==>
      r.error == BadArgument(Some(Lower(argument) + " is not a recognised boolean option"))
  {
    var lowered := Lower(argument);
    if lowered in TrueWords then Ok(true)
    else if lowered in FalseWords then Ok(false)
    else Err(BadArgument(Some(lowered + " is not a recognised boolean option")))
  }

  /** The parse does not depend on letter case. */
  lemma {:induction false} ConvertToBoolIgnoresCase(argument: string)
    ensures ConvertToBool(Upper(argument)) == ConvertToBool(argument)
  {
    assert Lower(Upper(argument)) == Lower(argument) by {
      forall i | 0 <= i < |argument|
        ensures LowerChar(UpperChar(argument[i])) == LowerChar(argument[i])
      {
      }
    }
  }

  // ------------------------------------------------------ command tables

  /** The dictionary key under which a name is stored: casefolded in a
      `_CaseInsensitiveDict`, as given in a plain dict. */
  function Key(ci: bool, k: string): string {
    if ci then Casefold(k) else k
  }

  function Keys(ci: bool, ks: seq<string>): set<string> {
    set i | 0 <= i < |ks| :: Key(ci, ks[i])
  }

  /** In a case-insensitive table two names address the same entry exactly
      when they agree ignoring case, and a stored key is its own key. */
  lemma {:induction false} CaseInsensitiveKeys(a: string, b: string)
    ensures Key(true, a) == Key(true, b) <==> Lower(a) == Lower(b)
    ensures Key(true, Key(true, a)) == Key(true, a)
  {
    assert Lower(Lower(a)) == Lower(a) by {
      forall i | 0 <= i < |a| ensures LowerChar(LowerChar(a[i])) == LowerChar(a[i]) {
      }
    }
  }

  /** `aliases` can all be added to a table whose keys are `used`: none is
      taken and no two of them collide. */
  predicate AliasesFree(used: set<string>, ci: bool, aliases: seq<string>) {
    (forall i :: 0 <= i < |aliases| ==> Key(ci, aliases[i]) !in used) &&
    (forall i, j :: 0 <= j < i < |aliases| ==> Key(ci, aliases[j]) != Key(ci, aliases[i]))
  }

  /** A command of that name and those aliases can be registered. */
  predicate Fits<V>(m: map<string, V>, ci: bool, name: string, aliases: seq<string>) {
    Key(ci, name) !in m && AliasesFree(m.Keys + {Key(ci, name)}, ci, aliases)
  }

  function AliasTaken(alias: string): Error {
    CommandError(Some("The alias " + alias + " is already an existing command or alias."))
  }

  function NameTaken(name: string): Error {
    CommandError(Some("Command " + name + " is already registered."))
  }

  /** The alias loop of `add_command`: each alias is stored in turn, and the
      first one already present stops the loop with an error. */
  function InsertAliases<V>(m: map<string, V>, ci: bool, aliases: seq<string>, v: V)
    : (map<string, V>, Option<Error>)
    decreases |aliases|
  {
    if aliases == [] then (m, None)
    else if Key(ci, aliases[0]) in m then (m, Some(AliasTaken(aliases[0])))
    else InsertAliases(m[Key(ci, aliases[0]) := v], ci, aliases[1..], v)
  }

  /** `add_command` on the table, as written: the name is stored before the
      aliases are looked at. */
  function AddAsWritten<V>(m: map<string, V>, ci: bool, name: string, aliases: seq<string>, v: V)
    : (map<string, V>, Option<Error>)
  {
    if Key(ci, name) in m then (m, Some(NameTaken(name)))
    else InsertAliases(m[Key(ci, name) := v], ci, aliases, v)
  }

  lemma KeysCons(ci: bool, ks: seq<string>)
    requires ks != []
    ensures Keys(ci, ks) == {Key(ci, ks[0])} + Keys(ci, ks[1..])
  {
    forall k | k in Keys(ci, ks) ensures k in {Key(ci, ks[0])} + Keys(ci, ks[1..]) {
      var i :| 0 <= i < |ks| && k == Key(ci, ks[i]);
      if i > 0 { assert k == Key(ci, ks[1..][i - 1]); }
    }
    forall k | k in Keys(ci, ks[1..]) ensures k in Keys(ci, ks) {
      var i :| 0 <= i < |ks[1..]| && k == Key(ci, ks[1..][i]);
      assert k == Key(ci, ks[i + 1]);
    }
  }

  lemma AliasesFreeCons(used: set<string>, ci: bool, aliases: seq<string>)
    requires aliases != []
    ensures AliasesFree(used, ci, aliases) <==>
      Key(ci, aliases[0]) !in used && AliasesFree(used + {Key(ci, aliases[0])}, ci, aliases[1..])
  {
    var rest := aliases[1..];
    var k0 := Key(ci, aliases[0]);
    assert forall i :: 0 < i < |aliases| ==> rest[i - 1] == aliases[i];
    if k0 !in used && AliasesFree(used + {k0}, ci, rest) {
      forall i, j | 0 <= j < i < |aliases|
        ensures Key(ci, aliases[j]) != Key(ci, aliases[i])
      {
        if j > 0 { assert Key(ci, rest[j - 1]) != Key(ci, rest[i - 1]); }
        else { assert Key(ci, rest[i - 1]) !in used + {k0}; }
      }
      forall i | 0 <= i < |aliases| ensures Key(ci, aliases[i]) !in used {
        if i > 0 { assert Key(ci, rest[i - 1]) !in used + {k0}; }
      }
    }
    if AliasesFree(used, ci, aliases) {
      forall i | 0 <= i < |rest| ensures Key(ci, rest[i]) !in used + {k0} {
        assert rest[i] == aliases[i + 1];
        assert Key(ci, aliases[0]) != Key(ci, aliases[i + 1]);
      }
      forall i, j | 0 <= j < i < |rest| ensures Key(ci, rest[j]) != Key(ci, rest[i]) {
        assert Key(ci, aliases[j + 1]) != Key(ci, aliases[i + 1]);
      }
    }
  }

  /** The alias loop stores every alias and fails on none of them exactly
      when they are all free; what was stored before is kept either way,
      and an error names the alias that clashed. */
  lemma InsertAliasesSpec<V>(m: map<string, V>, ci: bool, aliases: seq<string>, v: V)
    ensures var (r, e) := InsertAliases(m, ci, aliases, v);
      (e.None? <==> AliasesFree(m.Keys, ci, aliases)) &&
      (forall k :: k in m ==> k in r && r[k] == m[k]) &&
      (e.Some? ==> exists i :: 0 <= i < |aliases| && e.value == AliasTaken(aliases[i])) &&
      (e.None? ==> r.Keys == m.Keys + Keys(ci, aliases) &&
                   forall k :: k in Keys(ci, aliases) ==> r[k] == v)
  {
    InsertAliasesOutcome(m, ci, aliases, v);
    InsertAliasesStores(m, ci, aliases, v);
  }

  /** Whether the alias loop fails, and on which alias. */
  lemma InsertAliasesOutcome<V>(m: map<string, V>, ci: bool, aliases: seq<string>, v: V)
    ensures var e := InsertAliases(m, ci, aliases, v).1;
      (e.None? <==> AliasesFree(m.Keys, ci, aliases)) &&
      (e.Some? ==> exists i :: 0 <= i < |aliases| && e.value == AliasTaken(aliases[i]))
  {
    InsertAliasesFails(m, ci, aliases, v);
    if InsertAliases(m, ci, aliases, v).1.Some? {
      var i := InsertAliasesCulprit(m, ci, aliases, v);
    }
  }

  /** The alias loop fails exactly when some alias is taken. */
  lemma {:induction false} InsertAliasesFails<V>(m: map<string, V>, ci: bool, aliases: seq<string>, v: V)
    ensures InsertAliases(m, ci, aliases, v).1.None? <==> AliasesFree(m.Keys, ci, aliases)
    decreases |aliases|
  {
    if aliases != [] {
      AliasesFreeCons(m.Keys, ci, aliases);
      var k0 := Key(ci, aliases[0]);
      if k0 !in m {
        InsertAliasesFails(m[k0 := v], ci, aliases[1..], v);
        assert m[k0 := v].Keys == m.Keys + {k0};
      }
    }
  }

  /** A failing alias loop names one of the aliases. */
  lemma {:induction false} InsertAliasesCulprit<V>(m: map<string, V>, ci: bool, aliases: seq<string>, v: V)
    returns (i: nat)
    requires InsertAliases(m, ci, aliases, v).1.Some?
    ensures i < |aliases| && InsertAliases(m, ci, aliases, v).1.value == AliasTaken(aliases[i])
    decreases |aliases|
  {
    var k0 := Key(ci, aliases[0]);
    if k0 !in m {
      var j := InsertAliasesCulprit(m[k0 := v], ci, aliases[1..], v);
      i := j + 1;
    } else {
      i := 0;
    }
  }

  /** What the alias loop stores: the old entries always, every alias on
      success. */
  lemma {:induction false} InsertAliasesStores<V>(m: map<string, V>, ci: bool, aliases: seq<string>, v: V)
    ensures var (r, e) := InsertAliases(m, ci, aliases, v);
      (forall k :: k in m ==> k in r && r[k] == m[k]) &&
      (e.None? ==> r.Keys == m.Keys + Keys(ci, aliases) &&
                   forall k :: k in Keys(ci, aliases) ==> r[k] == v)
    decreases |aliases|
  {
    if aliases == [] {
      assert Keys(ci, aliases) == {};
    } else if Key(ci, aliases[0]) !in m {
      var k0 := Key(ci, aliases[0]);
      InsertAliasesStores(m[k0 := v], ci, aliases[1..], v);
      KeysCons(ci, aliases);
    }
  }

  /** The registration rule `add_command` evidently intends: the name and
      the aliases are all stored, or the table is left as it was. */
  function Add<V>(m: map<string, V>, ci: bool, name: string, aliases: seq<string>, v: V)
    : (map<string, V>, Option<Error>)
  {
    var (m', e) := AddAsWritten(m, ci, name, aliases, v);
    if e.Some? then (m, e) else (m', None)
  }

  /** Either the name and every alias now lead to the command and nothing
      else changed, or the registration is refused, naming the clash, and
      the table is untouched. */
  lemma AddSpec<V>(m: map<string, V>, ci: bool, name: string, aliases: seq<string>, v: V)
    ensures var r := Add(m, ci, name, aliases, v);
      (r.1.None? <==> Fits(m, ci, name, aliases)) &&
      (r.1.Some? ==> r.0 == m) &&
      (r.1.Some? ==> r.1.value == NameTaken(name) ||
                     exists i :: 0 <= i < |aliases| && r.1.value == AliasTaken(aliases[i])) &&
      (r.1.None? ==> r.0.Keys == m.Keys + {Key(ci, name)} + Keys(ci, aliases)) &&
      (r.1.None? ==> r.0[Key(ci, name)] == v && forall a :: a in aliases ==> r.0[Key(ci, a)] == v) &&
      (r.1.None? ==> forall k :: k in m ==> r.0[k] == m[k])
  {
    var k := Key(ci, name);
    if k !in m {
      InsertAliasesSpec(m[k := v], ci, aliases, v);
      assert m[k := v].Keys == m.Keys + {k};
      assert AddAsWritten(m, ci, name, aliases, v) == InsertAliases(m[k := v], ci, aliases, v);
      assert forall a :: a in aliases ==> Key(ci, a) in Keys(ci, aliases);
    } else {
      assert Add(m, ci, name, aliases, v) == (m, Some(NameTaken(name)));
    }
  }

  /** As written, an alias clash is reported after the command has already
      been stored under its name: the error leaves a half-registered
      command behind. */
  lemma AddAsWrittenNotAtomic()
    ensures AddAsWritten(map["b" := 1], false, "a", ["b"], 2) ==
      (map["b" := 1, "a" := 2], Some(AliasTaken("b")))
    ensures Add(map["b" := 1], false, "a", ["b"], 2) == (map["b" := 1], Some(AliasTaken("b")))
  {
    assert Key(false, "a") == "a" && Key(false, "b") == "b";
    assert ["b"][1..] == [];
    assert !Fits(map["b" := 1], false, "a", ["b"]) by {
      assert Key(false, ["b"][0]) in map["b" := 1].Keys;
    }
  }

  /** The alias loop of `remove_command`: `pop(alias, None)` for each alias. */
  function PopAll<V>(m: map<string, V>, ci: bool, ks: seq<string>): (r: map<string, V>)
    ensures forall k :: k in r <==> k in m && k !in Keys(ci, ks)
    ensures forall k :: k in r ==> r[k] == m[k]
    decreases |ks|
  {
    if ks == [] then m
    else
      var r := PopAll(m - {Key(ci, ks[0])}, ci, ks[1..]);
      KeysCons(ci, ks);
      r
  }

  /** A command that fits does not list its own name among its aliases,
      and the keys it takes are all new. */
  lemma FitsDisjoint<V>(m: map<string, V>, ci: bool, name: string, aliases: seq<string>)
    requires Fits(m, ci, name, aliases)
    ensures name !in aliases
    ensures Key(ci, name) !in Keys(ci, aliases) && Key(ci, name) !in m
    ensures Keys(ci, aliases) !! m.Keys
  {
    assert forall i :: 0 <= i < |aliases| ==> Key(ci, aliases[i]) != Key(ci, name);
  }

  /** `remove_command(name)` on the table `m`: the table afterwards and
      the command popped (`null` when the name is not there). */
  function Remove(m: map<string, Command>, ci: bool, name: string): (map<string, Command>, Command?) {
    var k := Key(ci, name);
    if k !in m then (m, null)
    else
      var c := m[k];
      if name in c.aliases then (m - {k}, c) else (PopAll(m - {k}, ci, c.aliases), c)
  }

  /** Removing an absent name changes nothing; removing by an alias drops
      just that entry; removing by any other name drops the name and every
      alias of the command found; no surviving entry changes. */
  lemma RemoveSpec(m: map<string, Command>, ci: bool, name: string)
    ensures var (r, c) := Remove(m, ci, name);
      (Key(ci, name) !in m <==> c == null) &&
      (c == null ==> r == m) &&
      (c != null ==> c == m[Key(ci, name)]) &&
      (c != null && name in c.aliases ==> r.Keys == m.Keys - {Key(ci, name)}) &&
      (c != null && name !in c.aliases ==> r.Keys == m.Keys - {Key(ci, name)} - Keys(ci, c.aliases)) &&
      (forall k :: k in r ==> k in m && r[k] == m[k])
  {
  }

  /** Registering a command and then removing it by its name restores the
      table it was registered in. */
  lemma AddRemoveRoundTrip(m: map<string, Command>, ci: bool, c: Command)
    requires Fits(m, ci, c.name, c.aliases)
    ensures Remove(Add(m, ci, c.name, c.aliases, c).0, ci, c.name) == (m, c)
  {
    AddSpec(m, ci, c.name, c.aliases, c);
    FitsDisjoint(m, ci, c.name, c.aliases);
    var a := Add(m, ci, c.name, c.aliases, c).0;
    var k := Key(ci, c.name);
    assert k in a && a[k] == c;
    var r := PopAll(a - {k}, ci, c.aliases);
    assert Remove(a, ci, c.name) == (r, c);
    forall x | x in Keys(ci, c.aliases) ensures x !in m {
      var i :| 0 <= i < |c.aliases| && x == Key(ci, c.aliases[i]);
    }
    assert r.Keys == m.Keys;
    assert forall x :: x in r ==> r[x] == a[x] == m[x];
    assert r == m;
  }

  // ------------------------------------------------------ command objects

  /** The `signature` entry of one parameter. */
  function ParamUsage(p: Parameter): string {
    if p.default.Some? then
      var d := p.default.value;
      var shouldPrint := if d.PyStr? then d.s != "" else d != PyNone;
      if shouldPrint then
        "[" + p.name + "=" + Str(d) + "]" + (if p.greedy then "..." else "")
      else "[" + p.name + "]"
    else if p.kind == VarPositional then "[" + p.name + "...]"
    else if p.greedy then "[" + p.name + "]..."
    else if p.optionalAnnotation then "[" + p.name + "]"
    else "<" + p.name + ">"
  }

  /** A parameter the caller must supply. */
  predicate Required(p: Parameter) {
    p.default.None? && p.kind != VarPositional && !p.greedy && !p.optionalAnnotation
  }

  /** Required parameters render as `<name>`, every other one in square
      brackets, and each entry spells the parameter's name right after its
      opening bracket. */
  lemma ParamUsageForms(p: Parameter)
    ensures Required(p) <==> ParamUsage(p) == "<" + p.name + ">"
    ensures Required(p) <==> ParamUsage(p)[0] == '<'
    ensures !Required(p) <==> ParamUsage(p)[0] == '['
    ensures |ParamUsage(p)| >= |p.name| + 2 && ParamUsage(p)[1..|p.name| + 1] == p.name
  {
    var u := ParamUsage(p);
    assert u[0] == '<' || u[0] == '[';
    assert u[1..|p.name| + 1] == p.name;
  }

  /** A parameter with a printable default shows it, with `...` appended
      for a greedy one; `None` and the empty string are not printable. */
  lemma ParamDefaultShown(p: Parameter, d: PyValue)
    requires p.default == Some(d)
    ensures (d == PyNone || d == PyStr("")) ==> ParamUsage(p) == "[" + p.name + "]"
    ensures d != PyNone && d != PyStr("") && !p.greedy ==>
      ParamUsage(p) == "[" + p.name + "=" + Str(d) + "]"
    ensures d != PyNone && d != PyStr("") && p.greedy ==>
      ParamUsage(p) == "[" + p.name + "=" + Str(d) + "]..."
  {
  }

  /** The first line of a text: `s.split('\n', 1)[0]`. */
  function FirstLine(s: string): (r: string)
    ensures '\n' !in r && |r| <= |s| && s[..|r|] == r
    ensures |r| < |s| ==> s[|r|] == '\n'
  {
    if s == [] || s[0] == '\n' then [] else [s[0]] + FirstLine(s[1..])
  }

  /** The names of a chain of parents, nearest first. */
  function NamesOf(ps: seq<Command>): (ns: seq<string>)
    ensures |ns| == |ps| && forall i :: 0 <= i < |ps| ==> ns[i] == ps[i].name
  {
    seq(|ps|, i requires 0 <= i < |ps| => ps[i].name)
  }

  /** `qualified_name` from the parent names (nearest first): the parents
      from the root down, then the command's own name. */
  function Qualified(parentNames: seq<string>, name: string): string {
    var parentName := Join(Reversed(parentNames), " ");
    if parentName != "" then parentName + " " + name else name
  }

  /** With no parents the qualified name is the name; with named parents it
      is the space-joined path from the root to the command. */
  lemma QualifiedIsPath(parentNames: seq<string>, name: string)
    requires forall i :: 0 <= i < |parentNames| ==> parentNames[i] != ""
    ensures parentNames == [] ==> Qualified(parentNames, name) == name
    ensures Qualified(parentNames, name) == Join(Reversed(parentNames) + [name], " ")
  {
    var rs := Reversed(parentNames);
    if rs != [] {
      JoinNonEmpty(rs, " ");
      JoinSnoc(rs, name, " ");
    } else {
      assert rs + [name] == [name];
    }
  }

  lemma {:induction false} JoinNonEmpty(parts: seq<string>, sep: string)
    requires parts != [] && parts[0] != ""
    ensures Join(parts, sep) != ""
  {
    assert |Join(parts, sep)| >= |parts[0]|;
  }

  /** `ps` is the chain of `parent` links above `c`, nearest first, ending
      at a command without a parent. */
  predicate IsParentChain(c: Command, ps: seq<Command>)
    reads c, ps
  {
    (ps == [] ==> c.parent == null) &&
    (ps != [] ==> c.parent == ps[0] && ps[|ps| - 1].parent == null &&
                  forall i :: 0 <= i < |ps| - 1 ==> ps[i].parent == ps[i + 1])
  }

  /** Following the words of a qualified name through nested group tables,
      with a miss or a non-group giving `None`. */
  ghost function Walk(obj: Command?, words: seq<string>): Command?
    reads *
    decreases |words|
  {
    if words == [] then obj
    else if obj == null || obj.subcommands == null then null
    else
      var t := obj.subcommands;
      var k := Key(t.caseInsensitive, words[0]);
      if k in t.entries then Walk(t.entries[k], words[1..]) else null
  }

  /** The outcome of `Command.can_run` given what the bot-wide checks, the
      cog's local check and the command's own checks did. */
  function CanRunOutcome(enabled: bool, name: string, qualifiedName: string,
                         global: Result<bool, Exc>, cogCheck: Option<CheckOutcome<Exc>>,
                         own: Result<bool, Exc>): Result<bool, Exc>
  {
    if !enabled then Err(Command(DisabledCommand(Some(name + " command is disabled"))))
    else if global.Err? then global
    else if !global.value then
      Err(Command(CheckFailure(Some("The global check functions for command " + qualifiedName + " failed."))))
    else if cogCheck.Some? && cogCheck.value.Raised? then Err(cogCheck.value.error)
    else if cogCheck.Some? && cogCheck.value.Falsy? then Ok(false)
    else own
  }

  /** A command can run exactly when it is enabled and every check on the
      way passes; a disabled command and a failed global check are errors,
      a failed local check is a plain `False`. */
  lemma CanRunSpec(enabled: bool, name: string, qualifiedName: string,
                   global: Result<bool, Exc>, cogCheck: Option<CheckOutcome<Exc>>,
                   checks: seq<CheckId>, run: CheckId -> CheckOutcome<Exc>)
    ensures var r := CanRunOutcome(enabled, name, qualifiedName, global, cogCheck, RunChecks(checks, run));
      (r == Ok(true) <==> enabled && global == Ok(true) && (cogCheck.None? || cogCheck.value.Truthy?) &&
                          forall i :: 0 <= i < |checks| ==> run(checks[i]).Truthy?) &&
      (!enabled ==> r == Err(Command(DisabledCommand(Some(name + " command is disabled"))))) &&
      (enabled && global == Ok(false) ==>
         r.Err? && r.error.Command? && IsCheckFailure(r.error.error) && IsUserInputError(r.error.error))
  {
    CanRunTrue(enabled, name, qualifiedName, global, cogCheck, checks, run);
    if enabled && global == Ok(false) {
      CanRunGlobalFailure(name, qualifiedName, cogCheck, RunChecks(checks, run));
    }
  }

  lemma CanRunGlobalFailure(name: string, qualifiedName: string,
                            cogCheck: Option<CheckOutcome<Exc>>, own: Result<bool, Exc>)
    ensures var r := CanRunOutcome(true, name, qualifiedName, Ok(false), cogCheck, own);
      r.Err? && r.error.Command? && IsCheckFailure(r.error.error) && IsUserInputError(r.error.error)
  {
    var e := CheckFailure(Some("The global check functions for command " + qualifiedName + " failed."));
    CheckFailuresAreUserInputErrors(e);
  }

  lemma CanRunTrue(enabled: bool, name: string, qualifiedName: string,
                   global: Result<bool, Exc>, cogCheck: Option<CheckOutcome<Exc>>,
                   checks: seq<CheckId>, run: CheckId -> CheckOutcome<Exc>)
    ensures CanRunOutcome(enabled, name, qualifiedName, global, cogCheck, RunChecks(checks, run)) == Ok(true) <==>
      enabled && global == Ok(true) && (cogCheck.None? || cogCheck.value.Truthy?) &&
      forall i :: 0 <= i < |checks| ==> run(checks[i]).Truthy?
  {
    RunChecksSpec(checks, run);
  }

  /** `Command` (and `Group`, which also owns a table of subcommands). */
  class Command {
    const name: string
    const aliases: seq<string>
    var parent: Command?
    /** The cog the command was injected by. */
    var cog: Option<CogRef>
    var subcommands: CommandTable?
    var enabled: bool
    const brief: Option<string>
    const help: Option<string>
    const usage: Option<string>
    /** The callback's parameters as `inspect.signature` lists them. */
    const params: seq<Parameter>
    /** Whether `self_instance` (the cog or the bot) is set. */
    const hasInstance: bool
    var checks: seq<CheckId>

    constructor (name: string, aliases: seq<string>, brief: Option<string>, help: Option<string>,
                 usage: Option<string>, params: seq<Parameter>, hasInstance: bool,
                 checks: seq<CheckId>, group: bool, caseInsensitive: bool)
      ensures this.name == name && this.aliases == aliases && parent == null && cog == None && enabled
      ensures this.brief == brief && this.help == help && this.usage == usage
      ensures this.params == params && this.hasInstance == hasInstance && this.checks == checks
      ensures group <==> subcommands != null
      ensures group ==> fresh(subcommands) && subcommands.entries == map[] &&
                        subcommands.caseInsensitive == caseInsensitive && subcommands.owner == this
    {
      this.name := name;
      this.aliases := aliases;
      this.brief := brief;
      this.help := help;
      this.usage := usage;
      this.params := params;
      this.hasInstance := hasInstance;
      this.checks := checks;
      parent := null;
      cog := None;
      enabled := true;
      new;
      if group {
        subcommands := new CommandTable(caseInsensitive, this);
      } else {
        subcommands := null;
      }
    }

    /** `parents`: the chain of parent commands, nearest first. */
    method Parents(ghost ps: seq<Command>) returns (elems: seq<Command>)
      requires IsParentChain(this, ps)
      ensures elems == ps
    {
      elems := [];
      var command := this;
      while command.parent != null
        invariant |elems| <= |ps| && elems == ps[..|elems|]
        invariant command == if elems == [] then this else elems[|elems| - 1]
        invariant |elems| < |ps| ==> command.parent == ps[|elems|]
        invariant |elems| == |ps| ==> command.parent == null
        decreases |ps| - |elems|
      {
        command := command.parent;
        elems := elems + [command];
      }
    }

    /** `full_parent_name`: the parents' names from the root down. */
    method FullParentName(ghost ps: seq<Command>) returns (s: string)
      requires IsParentChain(this, ps)
      ensures s == Join(Reversed(NamesOf(ps)), " ")
    {
      var elems: seq<string> := [];
      var command := this;
      while command.parent != null
        invariant |elems| <= |ps| && elems == NamesOf(ps)[..|elems|]
        invariant command == if elems == [] then this else ps[|elems| - 1]
        invariant |elems| < |ps| ==> command.parent == ps[|elems|]
        invariant |elems| == |ps| ==> command.parent == null
        decreases |ps| - |elems|
      {
        command := command.parent;
        elems := elems + [command.name];
      }
      assert elems == NamesOf(ps);
      s := Join(Reversed(elems), " ");
    }

    /** `qualified_name`. */
    method QualifiedName(ghost ps: seq<Command>) returns (s: string)
      requires IsParentChain(this, ps)
      ensures s == Qualified(NamesOf(ps), name)
    {
      var parentName := FullParentName(ps);
      if parentName != "" {
        s := parentName + " " + name;
      } else {
        s := name;
      }
    }

    /** `root_parent`: the outermost parent, `None` without a parent. */
    method RootParent(ghost ps: seq<Command>) returns (r: Command?)
      requires IsParentChain(this, ps)
      ensures ps == [] <==> r == null
      ensures ps != [] ==> r == ps[|ps| - 1] && r.parent == null
    {
      if parent == null {
        return null;
      }
      var elems := Parents(ps);
      r := elems[|elems| - 1];
    }

    /** `short_doc`: the brief text, else the first line of the help text,
        else empty. */
    function ShortDoc(): (d: string)
      ensures brief.Some? ==> d == brief.value
      ensures brief.None? && help.Some? ==> d == FirstLine(help.value) && '\n' !in d
      ensures brief.None? && help.None? ==> d == ""
    {
      if brief.Some? then brief.value
      else if help.Some? then FirstLine(help.value)
      else ""
    }

    /** `clean_params`: the parameters without `self` (when the callback
        belongs to an instance) and without the context parameter. */
    function CleanParams(): (r: Result<seq<Parameter>, Exc>)
      ensures hasInstance && params == [] ==> r == Err(KeyError("dictionary is empty"))
      ensures (hasInstance && |params| == 1) || (!hasInstance && params == []) ==>
        r == Err(ValueError("Missing context parameter"))
      ensures r.Ok? ==> r.value == params[(if hasInstance then 2 else 1)..]
    {
      if hasInstance && params == [] then Err(KeyError("dictionary is empty"))
      else
        var rest := if hasInstance then params[1..] else params;
        if rest == [] then Err(ValueError("Missing context parameter")) else Ok(rest[1..])
    }

    /** `signature`: the usage text when one was given, otherwise the
        parameters' entries separated by single spaces. */
    method Signature() returns (r: Result<string, Exc>)
      ensures usage.Some? ==> r == Ok(usage.value)
      ensures usage.None? && CleanParams().Err? ==> r == Err(CleanParams().error)
      ensures usage.None? && CleanParams().Ok? ==>
        r == Ok(Join(seq(|CleanParams().value|, i requires 0 <= i < |CleanParams().value| =>
                          ParamUsage(CleanParams().value[i])), " "))
    {
      if usage.Some? {
        return Ok(usage.value);
      }
      var clean := CleanParams();
      if clean.Err? {
        return Err(clean.error);
      }
      var ps := clean.value;
      if ps == [] {
        return Ok("");
      }
      var result: seq<string> := [];
      var i := 0;
      while i < |ps|
        invariant 0 <= i <= |ps|
        invariant result == seq(i, j requires 0 <= j < i => ParamUsage(ps[j]))
      {
        result := result + [ParamUsage(ps[i])];
        i := i + 1;
      }
      assert result == seq(|CleanParams().value|, j requires 0 <= j < |CleanParams().value| =>
                           ParamUsage(CleanParams().value[j]));
      return Ok(Join(result, " "));
    }

    /** `can_run(ctx)`: `global` is what the bot's `can_run` gave,
        `cogCheck` what the cog's overridden `cog_check` gave (`None` when
        there is none), `run` what each of the command's own checks gives. */
    method CanRun(ghost ps: seq<Command>, global: Result<bool, Exc>,
                  cogCheck: Option<CheckOutcome<Exc>>, run: CheckId -> CheckOutcome<Exc>)
      returns (r: Result<bool, Exc>)
      requires IsParentChain(this, ps)
      ensures r == CanRunOutcome(enabled, name, Qualified(NamesOf(ps), name), global, cogCheck,
                                 RunChecks(checks, run))
    {
      if !enabled {
        return Err(Command(DisabledCommand(Some(name + " command is disabled"))));
      }
      if global.Err? {
        return global;
      }
      if !global.value {
        var q := QualifiedName(ps);
        return Err(Command(CheckFailure(Some("The global check functions for command " + q + " failed."))));
      }
      if cogCheck.Some? {
        match cogCheck.value
        case Raised(e) => return Err(e);
        case Falsy => return Ok(false);
        case Truthy =>
      }
      var i := 0;
      while i < |checks|
        invariant 0 <= i <= |checks|
        invariant RunChecks(checks, run) == RunChecks(checks[i..], run)
      {
        assert checks[i..][1..] == checks[i + 1..];
        match run(checks[i])
        case Raised(e) => return Err(e);
        case Falsy => return Ok(false);
        case Truthy =>
        i := i + 1;
      }
      return Ok(true);
    }
  }

  /** The `all_commands` table of a bot or a group (`GroupMixin`). `owner`
      is the group itself, `None` for the bot's table. */
  class CommandTable {
    var entries: map<string, Command>
    const caseInsensitive: bool
    const owner: Command?

    constructor (caseInsensitive: bool, owner: Command?)
      ensures entries == map[] && this.caseInsensitive == caseInsensitive && this.owner == owner
    {
      entries := map[];
      this.caseInsensitive := caseInsensitive;
      this.owner := owner;
    }

    /** `all_commands.get(name)`. */
    function Get(name: string): (c: Command?)
      reads this
      ensures c != null <==> Key(caseInsensitive, name) in entries
      ensures c != null ==> c == entries[Key(caseInsensitive, name)]
    {
      var k := Key(caseInsensitive, name);
      if k in entries then entries[k] else null
    }

    /** `add_command(command)`; a `null` argument stands for an object that
        is not a `Command`. The aliases are tried on a staged copy of the
        table, so that a clash leaves the table as it was (see `Add`). */
    method AddCommand(command: Command?) returns (r: Option<Exc>)
      modifies this, command
      ensures command == null ==>
        r == Some(TypeError("Command passed must be a subclassed instance of Command")) &&
        entries == old(entries)
      ensures command != null ==>
        command.subcommands == old(command.subcommands) && command.enabled == old(command.enabled) &&
        command.checks == old(command.checks) && command.cog == old(command.cog)
      ensures command != null ==>
        command.parent == (if owner != null then owner else old(command.parent))
      ensures command != null ==>
        var (m, e) := Add<Command>(old(entries), caseInsensitive, command.name, command.aliases, command);
        entries == m && r == (if e.Some? then Some(Command(e.value)) else None)
    {
      if command == null {
        return Some(TypeError("Command passed must be a subclassed instance of Command"));
      }
      if owner != null {
        command.parent := owner;
      }
      var k := Key(caseInsensitive, command.name);
      if k in entries {
        return Some(Command(NameTaken(command.name)));
      }
      var staged: map<string, Command> := entries[k := command];
      var aliases := command.aliases;
      var i := 0;
      while i < |aliases|
        invariant 0 <= i <= |aliases|
        invariant InsertAliases<Command>(staged, caseInsensitive, aliases[i..], command) ==
                  AddAsWritten<Command>(old(entries), caseInsensitive, command.name, aliases, command)
      {
        assert aliases[i..][1..] == aliases[i + 1..];
        var alias := aliases[i];
        if Key(caseInsensitive, alias) in staged {
          return Some(Command(AliasTaken(alias)));
        }
        staged := staged[Key(caseInsensitive, alias) := command];
        i := i + 1;
      }
      entries := staged;
      return None;
    }

    /** `remove_command(name)`: the entry under `name`; by an alias only
        that alias goes, by any other name every alias goes too. */
    method RemoveCommand(name: string) returns (r: Command?)
      modifies this
      ensures (entries, r) == Remove(old(entries), caseInsensitive, name)
    {
      var k := Key(caseInsensitive, name);
      if k !in entries {
        return null;
      }
      r := entries[k];
      entries := entries - {k};
      if name in r.aliases {
        return r;
      }
      ghost var target := PopAll(entries, caseInsensitive, r.aliases);
      var i := 0;
      while i < |r.aliases|
        invariant 0 <= i <= |r.aliases|
        invariant PopAll(entries, caseInsensitive, r.aliases[i..]) == target
      {
        assert r.aliases[i..][1..] == r.aliases[i + 1..];
        entries := entries - {Key(caseInsensitive, r.aliases[i])};
        i := i + 1;
      }
    }

    /** `get_command(name)`: a name without a space is looked up directly;
        otherwise its words are followed through nested groups. */
    method GetCommand(name: string) returns (r: Result<Command?, Exc>)
      ensures ' ' !in name ==> r == Ok(Get(name))
      ensures ' ' in name && Split(name) == [] ==> r == Err(IndexError("list index out of range"))
      ensures ' ' in name && Split(name) != [] ==>
        var first := Get(Split(name)[0]);
        r == Ok(if first == null || first.subcommands == null then first
                else Walk(first, Split(name)[1..]))
    {
      if ' ' !in name {
        return Ok(Get(name));
      }
      var names := Split(name);
      if names == [] {
        return Err(IndexError("list index out of range"));
      }
      var obj := Get(names[0]);
      if obj == null || obj.subcommands == null {
        return Ok(obj);
      }
      ghost var first := obj;
      var i := 1;
      while i < |names|
        invariant 1 <= i <= |names|
        invariant Walk(first, names[1..]) == Walk(obj, names[i..])
      {
        assert names[i..][1..] == names[i + 1..];
        if obj == null || obj.subcommands == null {
          return Ok(null);
        }
        var t := obj.subcommands;
        var k := Key(t.caseInsensitive, names[i]);
        if k !in t.entries {
          return Ok(null);
        }
        obj := t.entries[k];
        i := i + 1;
      }
      return Ok(obj);
    }
  }
}
