/** The invocation context of a command: what it was invoked from and with,
    where replies go, and the re-invocation that puts the parsing state
    back however the inner call ends. */
module Contexts {
  import opened Wrappers
  import opened PyValues
  import opened Messages
  import opened CommandTypes
  import opened CommandsCore
  import opened Exceptions

  /** The cursor of the `StringView` the context parses from. */
  class View {
    var index: int
    var previous: int

    constructor (index: int, previous: int)
      ensures this.index == index && this.previous == previous
    {
      this.index := index;
      this.previous := previous;
    }
  }

  /** A positional argument handed to a command callback. */
  datatype Arg = CommandArg(cmd: Command) | CogArg(cog: CogRef) | ContextArg | ValueArg(value: PyValue)

  /** What `me` is: the client's member of the party, or the bot's user. */
  datatype Me = PartyMe(party: PartyRef) | BotUser(client: ClientRef)

  /** The fields the inner `reinvoke` of the command leaves behind: the
      command, the cursor, the subcommand bookkeeping, the arguments its
      parsing stored and whether its callback failed. */
  datatype Scribble = Scribble(command: Command?, index: int, previous: int, invokedWith: Option<string>,
                               invokedSubcommand: Command?, subcommandPassed: Option<string>,
                               args: seq<Arg>, kwargs: map<string, PyValue>, commandFailed: bool)

  /** The positional arguments `Context.invoke(*args)` passes to the
      callback, as written: `args` itself, the command object first. The
      list it builds with the cog and the context is never used. */
  function CallbackArgsAsWritten(args: seq<Arg>): (r: Result<seq<Arg>, Exc>)
    reads if args != [] && args[0].CommandArg? then {args[0].cmd} else {}
  {
    if args == [] then Err(TypeError("Missing command to invoke."))
    else if !args[0].CommandArg? then Err(AttributeError("cog"))
    else Ok(args)
  }

  /** The arguments the callback evidently expects: the cog when there is
      one, then the context, then the remaining arguments one by one. */
  function CallbackArgs(ctx: Arg, args: seq<Arg>): (r: Result<seq<Arg>, Exc>)
    reads if args != [] && args[0].CommandArg? then {args[0].cmd} else {}
  {
    if args == [] then Err(TypeError("Missing command to invoke."))
    else if !args[0].CommandArg? then Err(AttributeError("cog"))
    else
      var cog := args[0].cmd.cog;
      Ok((if cog.Some? then [CogArg(cog.value)] else []) + [ctx] + args[1..])
  }

  /** The corrected call hands the callback the cog (when there is one) and
      the context in front of the caller's arguments, in order, and never
      the command object itself. */
  lemma CallbackArgsSpec(args: seq<Arg>)
    ensures args != [] && args[0].CommandArg? ==>
      var r := CallbackArgs(ContextArg, args);
      var c := args[0].cmd;
      var at := if c.cog.Some? then 1 else 0;
      r.Ok? && |r.value| == at + |args| &&
      r.value[at] == ContextArg &&
      (c.cog.Some? ==> r.value[0] == CogArg(c.cog.value)) &&
      r.value[at + 1..] == args[1..]
  {
  }

  /** As written, the callback receives the command object where the
      context (or the cog) belongs, and the context is not passed at all. */
  lemma CallbackArgsAsWrittenDropsContext(c: Command, x: PyValue)
    requires c.cog == None
    ensures CallbackArgsAsWritten([CommandArg(c), ValueArg(x)]) == Ok([CommandArg(c), ValueArg(x)])
    ensures ContextArg !in CallbackArgsAsWritten([CommandArg(c), ValueArg(x)]).value
    ensures CallbackArgs(ContextArg, [CommandArg(c), ValueArg(x)]) == Ok([ContextArg, ValueArg(x)])
  {
    assert [CommandArg(c), ValueArg(x)][1..] == [ValueArg(x)];
    assert [] + [ContextArg] + [ValueArg(x)] == [ContextArg, ValueArg(x)];
  }

  class Context {
    var message: Option<Message>
    var bot: Option<ClientRef>
    var args: seq<Arg>
    var kwargs: map<string, PyValue>
    var prefix: Option<string>
    var command: Command?
    var view: View?
    var invokedWith: Option<string>
    var invokedSubcommand: Command?
    var subcommandPassed: Option<string>
    var commandFailed: bool

    constructor (message: Option<Message>, bot: Option<ClientRef>, args: seq<Arg>,
                 kwargs: map<string, PyValue>, prefix: Option<string>, command: Command?, view: View?,
                 invokedWith: Option<string>, invokedSubcommand: Command?,
                 subcommandPassed: Option<string>, commandFailed: bool)
      ensures this.message == message && this.bot == bot && this.prefix == prefix
      ensures this.args == args && this.kwargs == kwargs
      ensures this.command == command && this.view == view && this.invokedWith == invokedWith
      ensures this.invokedSubcommand == invokedSubcommand && this.subcommandPassed == subcommandPassed
      ensures this.commandFailed == commandFailed
    {
      this.message := message;
      this.bot := bot;
      this.args := args;
      this.kwargs := kwargs;
      this.prefix := prefix;
      this.command := command;
      this.view := view;
      this.invokedWith := invokedWith;
      this.invokedSubcommand := invokedSubcommand;
      this.subcommandPassed := subcommandPassed;
      this.commandFailed := commandFailed;
    }

    /** `Context(**attrs)`: `prefix` must be passed (possibly as `None`);
        `args` defaults to no arguments, `kwargs` to none, `command_failed`
        to false, and every other attribute to `None`. */
    static method New(message: Option<Message>, bot: Option<ClientRef>, args: Option<seq<Arg>>,
                      kwargs: Option<map<string, PyValue>>, prefix: Option<Option<string>>,
                      command: Command?, view: View?, invokedWith: Option<string>,
                      invokedSubcommand: Command?, subcommandPassed: Option<string>,
                      commandFailed: Option<bool>)
      returns (r: Result<Context, Exc>)
      ensures prefix.None? <==> r.Err?
      ensures r.Err? ==> r.error == KeyError("prefix")
      ensures r.Ok? ==>
        fresh(r.value) && r.value.prefix == prefix.value && r.value.message == message &&
        r.value.bot == bot && r.value.command == command && r.value.view == view &&
        r.value.invokedWith == invokedWith &&
        r.value.args == args.GetOr([]) && r.value.kwargs == kwargs.GetOr(map[]) &&
        r.value.commandFailed == commandFailed.GetOr(false) &&
        r.value.invokedSubcommand == invokedSubcommand && r.value.subcommandPassed == subcommandPassed
    {
      if prefix.None? {
        return Err(KeyError("prefix"));
      }
      var c := new Context(message, bot, args.GetOr([]), kwargs.GetOr(map[]), prefix.value, command, view,
                           invokedWith, invokedSubcommand, subcommandPassed, commandFailed.GetOr(false));
      return Ok(c);
    }

    /** `valid`. */
    predicate Valid()
      reads this
    {
      prefix.Some? && command != null
    }

    /** `cog`: the cog of the command, `None` without a command. */
    function Cog(): (c: Option<CogRef>)
      reads this, command
      ensures command == null ==> c == None
      ensures command != null ==> c == command.cog
    {
      if command == null then None else command.cog
    }

    /** `party`: the party the message came from, if any. */
    function Party(): (p: Option<PartyRef>)
      reads this
      ensures p.Some? <==> message.Some? && message.value.PartyMessage?
      ensures p.Some? ==> p.value == message.value.party
    {
      if message.None? then None else message.value.PartyOf()
    }

    /** `author`. */
    function Author(): (a: Result<Author, Exc>)
      reads this
      ensures a.Err? <==> message.None?
      ensures a.Ok? ==> a.value == message.value.Author()
    {
      if message.None? then Err(AttributeError("author")) else Ok(message.value.Author())
    }

    /** `me`: the client's party member in a party, otherwise the bot's
        user. */
    function Me(): (m: Result<Me, Exc>)
      reads this
      ensures Party().Some? ==> m == Ok(PartyMe(Party().value))
      ensures Party().None? && bot.Some? ==> m == Ok(BotUser(bot.value))
      ensures Party().None? && bot.None? ==> m.Err?
    {
      if Party().Some? then Ok(PartyMe(Party().value))
      else if bot.Some? then Ok(BotUser(bot.value))
      else Err(AttributeError("user"))
    }

    /** `get_destination()`: the party when there is one, else the author. */
    function GetDestination(): (d: Result<Messageable, Exc>)
      reads this
      ensures Party().Some? ==> d == Ok(ToParty(Party().value))
      ensures Party().None? ==> d == (if Author().Ok? then Ok(ToAuthor(Author().value)) else Err(Author().error))
    {
      if Party().Some? then Ok(ToParty(Party().value))
      else if Author().Ok? then Ok(ToAuthor(Author().value))
      else Err(Author().error)
    }

    /** `invoke(*args)`: the positional arguments the command's callback is
        called with (the call itself is the callback's business). */
    function InvokeArgs(args: seq<Arg>): (r: Result<seq<Arg>, Exc>)
      reads if args != [] && args[0].CommandArg? then {args[0].cmd} else {}
      ensures args == [] ==> r == Err(TypeError("Missing command to invoke."))
      ensures r.Ok? ==>
        args[0].CommandArg? && ContextArg in r.value && |r.value| >= |args| &&
        r.value[|r.value| - |args| + 1..] == args[1..]
    {
      CallbackArgsSpec(args);
      CallbackArgs(ContextArg, args)
    }

    /** Writes the command, the cursor, the subcommand fields, the
        arguments and the failure flag. */
    method SetState(v: View, st: Scribble)
      modifies this, v
      ensures command == st.command && v.index == st.index && v.previous == st.previous
      ensures invokedWith == st.invokedWith && invokedSubcommand == st.invokedSubcommand
      ensures subcommandPassed == st.subcommandPassed
      ensures args == st.args && kwargs == st.kwargs && commandFailed == st.commandFailed
      ensures message == old(message) && prefix == old(prefix) && bot == old(bot) && view == old(view)
    {
      command := st.command;
      v.index, v.previous := st.index, st.previous;
      invokedWith := st.invokedWith;
      invokedSubcommand := st.invokedSubcommand;
      subcommandPassed := st.subcommandPassed;
      args, kwargs, commandFailed := st.args, st.kwargs, st.commandFailed;
    }

    /** `reinvoke(call_hooks=..., restart=...)`: `ps` is the command's
        parent chain, `inner` what the command's own `reinvoke` leaves in
        the context and `raised` what it raises. */
    method Reinvoke(ghost ps: seq<Command>, callHooks: bool, restart: bool, inner: Scribble, raised: Option<Exc>)
      returns (called: Command?, r: Option<Exc>)
      requires command != null ==> IsParentChain(command, ps)
      modifies this, view
      ensures old(command) == null ==>
        r == Some(ValueError("This context is not valid.")) && called == null && unchanged(this)
      ensures old(command) != null && old(view) == null ==>
        r == Some(AttributeError("index")) && called == null && unchanged(this)
      ensures old(command) != null && old(view) != null && restart && old(prefix).None? ==>
        r == Some(TypeError("object of type 'NoneType' has no len()")) && called == null &&
        unchanged(this) && unchanged(view)
      ensures old(command) != null && old(view) != null && !(restart && old(prefix).None?) ==>
        r == raised &&
        called == (if restart && ps != [] then ps[|ps| - 1] else old(command)) &&
        command == old(command) && view == old(view) &&
        view.index == old(view.index) && view.previous == old(view.previous) &&
        invokedWith == old(invokedWith) && invokedSubcommand == old(invokedSubcommand) &&
        subcommandPassed == old(subcommandPassed) &&
        args == inner.args && kwargs == inner.kwargs && commandFailed == inner.commandFailed
      ensures message == old(message) && prefix == old(prefix) && bot == old(bot)
    {
      var cmd := command;
      var v := view;
      if cmd == null {
        return null, Some(ValueError("This context is not valid."));
      }
      if v == null {
        return null, Some(AttributeError("index"));
      }
      var index, previous := v.index, v.previous;
      var savedInvokedWith := invokedWith;
      var savedInvokedSubcommand := invokedSubcommand;
      var savedSubcommandPassed := subcommandPassed;
      var toCall: Command;
      if restart {
        var root := cmd.RootParent(ps);
        toCall := if root != null then root else cmd;
        if prefix.None? {
          return null, Some(TypeError("object of type 'NoneType' has no len()"));
        }
        v.index := |prefix.value|;
        v.previous := 0;
      } else {
        toCall := cmd;
      }
      // the command's own reinvoke parses on and records what it found
      SetState(v, inner);
      // the `finally` block, which leaves the arguments and the failure flag alone
      SetState(v, Scribble(cmd, index, previous, savedInvokedWith, savedInvokedSubcommand,
                           savedSubcommandPassed, args, kwargs, commandFailed));
      return toCall, raised;
    }
  }

  /** The context sends where a reply to its message would go: to the
      party for party chat, to the author for a whisper. */
  lemma DestinationIsReplyTarget(c: Context, text: string)
    requires c.message.Some?
    ensures c.GetDestination() == Ok(c.message.value.Reply(text).target)
  {
    ReplyRouting(c.message.value, text);
  }

  /** A context is valid exactly when it has a prefix and a command. */
  lemma ValidSpec(c: Context)
    ensures c.Valid() <==> c.prefix.Some? && c.command != null
    ensures c.Valid() ==> c.Cog() == c.command.cog
  {
  }
}
