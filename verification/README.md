# fortnitepy core, modelled in Dafny

A model of the logic of the fortnitepy client library and of its
`commands` extension, with proofs about it:

- **Command errors.** The error hierarchy of the command framework is one
  datatype with a kind per exception class. The model proves facts about the
  classification (every check failure is a user-input error, extension errors
  are never command errors) and about how each exception formats its message.
- **Messages.** Friend and party messages, and where a reply goes.
- **Rate limiting.** The `Cooldown` token bucket, the per-author
  `CooldownMapping` cache, and the non-waiting path of the `_Semaphore` and
  `MaxConcurrency` counters. These are classes whose methods keep
  `0 <= tokens <= rate` and the other invariants.
- **Command registry.**
  - The case-insensitive name and alias table of `GroupMixin`: add, remove
    and get.
  - Qualified names and parent chains, usage signatures, `short_doc`, boolean
    argument parsing, and the `can_run` order of checks.
- **Bot.** Check lists, owners, prefix normalisation, the invoke path when no
  command is found, and the guards for loading and unloading extensions.
- **Context.** The context's defaults, validity and destination, and
  `reinvoke`, which restores the parsing state however the inner call ends.
- **Cogs.** Name and handler rules, `Cog.event`, `get_commands`,
  `walk_commands`, and `_inject` / `_eject`, including the rollback of a
  failed registration.
- **Converters.** Recognising 32-hex-digit ids, the user, party member and
  friend lookups, and `Greedy[...]`.
- **Party meta.**
  - The `MetaBase` schema, whose key suffix chooses JSON, int, bool or text.
  - The merge of meta partials in `update_meta`, and the diff `_edit`
    reports.
  - The default party settings of `DefaultPartyConfig`, and the privacy its
    `update_meta` applies from a `set_privacy` partial.
  - Squad position assignment, leader roles, and the checks on a new
    maximum party size.
- **Small records.** Kairos avatars and their dictionary form, playlists,
  and the `HTTPException` / `ValidationFailure` field extraction and text.

Python values (`None`, ints, text, lists, dicts) are the datatype
`PyValues.PyValue`. Python's text built-ins (`lower`, `split`, `int()`,
`str()`, `repr`) are modelled in `PyText`. Exceptions are
`Exceptions.Exc`, with the framework's own errors under `Command(...)`.

`AuthException` (fortnitepy/errors.py:53-55) is the record
`HttpErrors.AuthException`. Its message and original cause are its
constructor's arguments by construction, so no member states them.

## Model

| member | source | states |
|---|---|---|
| CommandErrors.Parent | fortnitepy/ext/commands/errors.py:66-483 | the base each class declares is strictly nearer the root than the class itself, so following bases never loops |
| CommandErrors.RootIsAncestor | fortnitepy/ext/commands/errors.py:66-483 | every exception class of the framework descends from the library's base exception |
| CommandErrors.SubclassTransitive | fortnitepy/ext/commands/errors.py:66-483 | `issubclass` over the declared hierarchy is transitive |
| CommandErrors.AncestorNotDeeper | fortnitepy/ext/commands/errors.py:66-483 | the declared hierarchy has no cycles: an ancestor is strictly closer to the root unless it is the class itself |
| CommandErrors.ExtensionErrorsAreNotCommandErrors | fortnitepy/ext/commands/errors.py:66-81 | an error is an extension error exactly when it is not a command error (the two families are disjoint and cover everything) |
| CommandErrors.CheckFailuresAreUserInputErrors | fortnitepy/ext/commands/errors.py:140-199 | every check failure is a user-input error and a command error |
| CommandErrors.CheckFailureKinds | fortnitepy/ext/commands/errors.py:140-199 | the check failures are exactly `CheckFailure`, `CheckAnyFailure`, `PrivateMessageOnly`, `PartyMessageOnly` and `NotOwner` |
| CommandErrors.UserInputErrorKinds | fortnitepy/ext/commands/errors.py:83-140 | the user-input errors are exactly the check failures, the argument-parsing errors and the five direct kinds |
| CommandErrors.OrDefault | fortnitepy/ext/commands/errors.py:175-190 | `message or default`: a missing or empty message gives the default, any other message is kept |
| CommandErrors.ConverterNames | fortnitepy/ext/commands/errors.py:314-321 | one display name per converter, in order: the `__name__` of a type, the class name of an instance |
| CommandErrorMessages.MissingArgumentMessage | fortnitepy/ext/commands/errors.py:116-119 | the message starts with the parameter's name and ends with " is a required argument that is missing."; two messages agree exactly when the names do |
| CommandErrorMessages.ContextOnlyMessages | fortnitepy/ext/commands/errors.py:168-190 | `PrivateMessageOnly` and `PartyMessageOnly` show a given non-empty message and their fixed default otherwise |
| CommandErrorMessages.WrappedCauseMessages | fortnitepy/ext/commands/errors.py:209-225 | `CommandInvokeError` and `ExtensionFailed` keep the original exception and show its class name and text at the end of their message |
| CommandErrorMessages.ConcurrencyClauseShape | fortnitepy/ext/commands/errors.py:262-270 | the clause reads "n times" for n > 1 and "n time" otherwise, and ends with "globally" for the default bucket and "per <bucket>" for the others |
| CommandErrorMessages.UnionNamesShape | fortnitepy/ext/commands/errors.py:318-325 | one or two converter names are joined by " or ", more are listed with ", " and a final ", or " |
| CommandErrorMessages.BadUnionMessage | fortnitepy/ext/commands/errors.py:308-328 | `BadUnionArgument` keeps parameter, converters and errors, and its message is `Could not convert "<name>" into <names>.` |
| CommandErrorMessages.ExtensionErrorDefault | fortnitepy/ext/commands/errors.py:407-412 | an extension error keeps the name and, with no or an empty message, says `Extension '<name>' had an error.` |
| CommandErrorMessages.TemplatedMessagesNonEmpty | fortnitepy/ext/commands/errors.py:104-483 | every error whose constructor formats a fixed template, and `ConversionError`, whose text is the `repr` of its argument tuple, has a non-empty message |
| CommandErrorMessages.EmptyMessages | fortnitepy/ext/commands/errors.py:66-483 | `str(e)` is empty exactly for a kind that only passes on its optional message, when that message was not given or was empty |
| CommandErrorMessages.ConversionMessage | fortnitepy/ext/commands/errors.py:273-289 | `ConversionError` keeps the converter and the original exception, and, since it never calls its base `__init__`, its text is the tuple `(repr(converter), repr(original))` |
| CommandErrors.Message | fortnitepy/ext/commands/errors.py:66-483 | the message each exception's constructor formats from its payload, template by template (its properties are stated by the `CommandErrorMessages` lemmas) |
| CommandErrors.Cents | fortnitepy/ext/commands/errors.py:244-245 | the hundredths `'{:.2f}'` prints for a non-negative number: within half a hundredth of it, and even on a tie |
| CommandErrors.Fixed2Abs | fortnitepy/ext/commands/errors.py:244-245 | `'{:.2f}'` of a non-negative number: digits, a point and exactly two digits, which read without the point are `Cents` of the number |
| CommandErrors.Fixed2 | fortnitepy/ext/commands/errors.py:244-245 | `'{:.2f}'` of any number: a minus sign exactly for a negative number, followed by the text of its magnitude |
| CommandTypes.BucketType.GetKey | fortnitepy/ext/commands/cooldown.py:48-50 | the `user` bucket keys by the author's id; the `default` bucket has the single key `None` |
| Cooldowns.Now | fortnitepy/ext/commands/cooldown.py:79 | `current or time.time()`: a given non-zero time is used, an absent or zero one falls back to the clock |
| Cooldowns.Tokens | fortnitepy/ext/commands/cooldown.py:67-75 | after the window has passed the bucket reads as full, otherwise it reads the stored count |
| Cooldowns.StepOutcome | fortnitepy/ext/commands/cooldown.py:77-98 | `update_rate_limit` always records the time of use; it refuses exactly when the refilled count is 0, then returning `per - (t - window)` and taking nothing; otherwise it takes exactly one token |
| Cooldowns.StepWindow | fortnitepy/ext/commands/cooldown.py:84-98 | the window moves to now when the first token of a full bucket or the last token is taken, and stays put otherwise |
| Cooldowns.StepKeepsRange | fortnitepy/ext/commands/cooldown.py:77-98 | `update_rate_limit` keeps `0 <= tokens <= rate` |
| Cooldowns.Accepted | fortnitepy/ext/commands/cooldown.py:77-98 | the number of a sequence of calls that take a token is at most the number of calls |
| Cooldowns.AcceptedWhileEmpty | fortnitepy/ext/commands/cooldown.py:84-98 | an empty bucket refuses every call made before its window has passed |
| Cooldowns.BurstWithinWindow | fortnitepy/ext/commands/cooldown.py:84-98 | calls at one instant inside the window take at most the tokens left |
| Cooldowns.BurstBound | fortnitepy/ext/commands/cooldown.py:77-98 | however many calls are made at one instant, at most `rate` of them are let through, whatever the bucket's state |
| Cooldowns.AcceptedWhileEmptyZero | fortnitepy/ext/commands/cooldown.py:77-98 | a bucket of rate zero never lets a call through |
| Cooldowns.Cooldown.constructor | fortnitepy/ext/commands/cooldown.py:56-62 | a new bucket keeps its configuration and is full, with window and last use at zero |
| Cooldowns.Cooldown.GetTokens | fortnitepy/ext/commands/cooldown.py:67-75 | `get_tokens` is `Tokens` of the current state at `current or time.time()` and changes nothing |
| Cooldowns.Cooldown.UpdateRateLimit | fortnitepy/ext/commands/cooldown.py:77-98 | the new state and the returned retry time are exactly one `Step` of the old state, for every bucket (a negative `rate` included), and a bucket that held between 0 and `rate` tokens still does |
| Cooldowns.Cooldown.Reset | fortnitepy/ext/commands/cooldown.py:100-102 | tokens back to `rate`, last use 0, window and configuration untouched |
| Cooldowns.Cooldown.Copy | fortnitepy/ext/commands/cooldown.py:104-105 | a new, distinct bucket with the same configuration in the fresh state |
| Cooldowns.CooldownMapping.constructor | fortnitepy/ext/commands/cooldown.py:113-115 | a mapping holds the original bucket and an empty cache |
| Cooldowns.CooldownMapping.FromCooldown | fortnitepy/ext/commands/cooldown.py:126-130 | `from_cooldown` wraps a new bucket of the given configuration |
| Cooldowns.CooldownMapping.Live | fortnitepy/ext/commands/cooldown.py:141-142 | the live cache keeps exactly the entries whose bucket was used within its period |
| Cooldowns.CooldownMapping.VerifyCacheIntegrity | fortnitepy/ext/commands/cooldown.py:135-144 | the cache becomes exactly its live part; the original bucket is untouched |
| Cooldowns.CooldownMapping.GetBucket | fortnitepy/ext/commands/cooldown.py:146-159 | the default type gets the shared bucket and the cache is untouched; the user type purges stale entries, then returns the author's cached bucket, or a fresh copy of the original that is added under the author's key |
| Cooldowns.Semaphore.constructor | fortnitepy/ext/commands/cooldown.py:170-173 | a semaphore starts with `number` free slots |
| Cooldowns.Semaphore.TryAcquire | fortnitepy/ext/commands/cooldown.py:192-209 | the non-waiting acquire succeeds exactly when a slot is free, and then takes one; otherwise nothing changes |
| Cooldowns.Semaphore.Release | fortnitepy/ext/commands/cooldown.py:211-213 | release frees one slot |
| Cooldowns.AcquireOutcome | fortnitepy/ext/commands/cooldown.py:243-253 | `MaxConcurrencyReached(number, per)` is raised exactly when the key's semaphore has no free slot and the command does not wait, and the table is then unchanged; the slot is taken exactly when one is free or the key is new |
| Cooldowns.AcquireKeepsValid | fortnitepy/ext/commands/cooldown.py:243-253 | acquiring keeps every entry between 0 and `number - 1` free slots |
| Cooldowns.ReleaseKeepsValid | fortnitepy/ext/commands/cooldown.py:255-269 | releasing keeps every entry between 0 and `number - 1` free slots, since a fully released entry is deleted |
| Cooldowns.AcquireReleaseRoundTrip | fortnitepy/ext/commands/cooldown.py:243-269 | a release right after a successful acquire restores the table exactly, deleting the entry of a key nobody else holds |
| Cooldowns.MaxConcurrency.constructor | fortnitepy/ext/commands/cooldown.py:219-223 | a new limiter keeps its configuration and has an empty table |
| Cooldowns.MaxConcurrency.New | fortnitepy/ext/commands/cooldown.py:219-227 | a number below one is a `ValueError` with the source's message; otherwise a new limiter with an empty table |
| Cooldowns.MaxConcurrency.Acquire | fortnitepy/ext/commands/cooldown.py:243-253 | the table and the outcome are exactly `AcquireCounts` of the old table at the message's key |
| Cooldowns.MaxConcurrency.Release | fortnitepy/ext/commands/cooldown.py:255-269 | the table is exactly `ReleaseCounts` of the old table at the message's key |
| Messages.Message.Author | fortnitepy/message.py:54-57 | a friend message's author is the friend it came from, a party message's author the party member |
| Messages.Message.PartyOf | fortnitepy/message.py:102-107 | only a party message has a party, and it is the party it was made with |
| Messages.Message.Reply | fortnitepy/message.py:85-128 | a reply is one `send` of exactly the given content: to the author for a friend message, to the party (never the author) for a party message |
| Messages.NewFriendMessage | fortnitepy/message.py:41-79 | client, author, content and creation time are kept as given; a friend message has no party |
| Messages.NewPartyMessage | fortnitepy/message.py:102-107 | client, party, member author, content and creation time are kept as given |
| Messages.ReplyRouting | fortnitepy/message.py:85-128 | the reply goes to the message's party exactly when it has one, and to its author exactly when it has none |
| CommandsCore.ConvertToBool | fortnitepy/ext/commands/core.py:104-113 | true exactly for the seven "yes" words, false exactly for the seven "no" words (after lower-casing), otherwise `BadArgument("<lowered> is not a recognised boolean option")` |
| CommandsCore.ConvertToBoolIgnoresCase | fortnitepy/ext/commands/core.py:104-113 | the parse does not depend on letter case |
| CommandsCore.CaseInsensitiveKeys | fortnitepy/ext/commands/core.py:116-133 | in a case-insensitive table two names address the same entry exactly when they agree ignoring case, and a stored key is its own key |
| CommandsCore.InsertAliasesSpec | fortnitepy/ext/commands/core.py:1230-1237 | the alias loop succeeds exactly when every alias is free and distinct, then stores each alias for the command; earlier entries are never changed; an error names an alias |
| CommandsCore.AddSpec | fortnitepy/ext/commands/core.py:1211-1237 | registration succeeds exactly when the name and every alias are free; then the name and each alias lead to the command, the old entries are kept and no other key appears; otherwise the table is unchanged and the error names the name or an alias |
| CommandsCore.AddAsWrittenNotAtomic | fortnitepy/ext/commands/core.py:1229-1237 | as written, adding `a` with alias `b` to a table holding `b` reports the clash yet leaves `a` registered; the corrected `Add` leaves the table as it was |
| CommandsCore.PopAll | fortnitepy/ext/commands/core.py:1266-1267 | popping each alias removes exactly the aliases' keys and keeps every other entry |
| CommandsCore.RemoveSpec | fortnitepy/ext/commands/core.py:1239-1268 | an absent name gives `None` and no change; removal by an alias drops only that key; removal by another name drops it and every alias of the command; surviving entries are unchanged |
| CommandsCore.AddRemoveRoundTrip | fortnitepy/ext/commands/core.py:1192-1268 | registering a command that fits and removing it by its name gives back the original table and the command |
| CommandsCore.ParamUsageForms | fortnitepy/ext/commands/core.py:1031-1057 | exactly the required parameters render as `<name>`, every other one starts with `[`, and each entry spells the parameter's name after its bracket |
| CommandsCore.ParamDefaultShown | fortnitepy/ext/commands/core.py:1034-1047 | a printable default renders as `[name=default]` (with `...` when greedy); a `None` or empty-string default renders as `[name]` |
| CommandsCore.FirstLine | fortnitepy/ext/commands/core.py:1004-1005 | the first line is the longest newline-free prefix of the text |
| CommandsCore.QualifiedIsPath | fortnitepy/ext/commands/core.py:679-692 | without parents the qualified name is the name; otherwise it is the space-joined path from the root down to the command |
| CommandsCore.CanRunSpec | fortnitepy/ext/commands/core.py:1061-1126 | a command can run exactly when it is enabled, the global checks pass, the cog's check (if any) is truthy and every own check is truthy; disabled gives `DisabledCommand`; a failed global check gives a `CheckFailure` that is a user-input error |
| CommandsCore.Command.constructor | fortnitepy/ext/commands/core.py:205-245 | a new command keeps its name, aliases, texts, parameters and checks, is enabled, has no parent or cog, and a group gets its own empty table |
| CommandsCore.Command.Parents | fortnitepy/ext/commands/core.py:647-662 | the loop returns exactly the chain of parents, nearest first |
| CommandsCore.Command.FullParentName | fortnitepy/ext/commands/core.py:631-645 | the loop returns the parents' names from the root down, joined by spaces |
| CommandsCore.Command.QualifiedName | fortnitepy/ext/commands/core.py:678-692 | the qualified name of the command's parent chain and name |
| CommandsCore.Command.RootParent | fortnitepy/ext/commands/core.py:664-676 | `None` exactly when there is no parent, otherwise the last parent of the chain, which itself has no parent |
| CommandsCore.Command.ShortDoc | fortnitepy/ext/commands/core.py:990-1007 | the brief text when set, else the first line of the help text (no newline), else `""` |
| CommandsCore.Command.CleanParams | fortnitepy/ext/commands/core.py:612-629 | drops `self` (when bound) and the context parameter; an empty table raises `KeyError`, a missing context parameter `ValueError` |
| CommandsCore.Command.Signature | fortnitepy/ext/commands/core.py:1018-1059 | the usage text when given; otherwise the entry of every clean parameter, in order, joined by single spaces (`""` for none); errors of `clean_params` propagate |
| CommandsCore.Command.CanRun | fortnitepy/ext/commands/core.py:1061-1126 | the outcome is `CanRunOutcome` of the command's state and qualified name, which `CanRunSpec` characterises |
| CommandsCore.CommandTable.constructor | fortnitepy/ext/commands/core.py:1145-1149 | a new table is empty and remembers whether it is case-insensitive |
| CommandsCore.CommandTable.Get | fortnitepy/ext/commands/core.py:116-133 | `get` finds an entry exactly when the (casefolded) name is a key, and returns that entry |
| CommandsCore.CommandTable.AddCommand | fortnitepy/ext/commands/core.py:1192-1237 | a non-command is a `TypeError` and changes nothing; a group's table makes itself the parent; the table and the error are exactly those of the atomic `Add` |
| CommandsCore.CommandTable.RemoveCommand | fortnitepy/ext/commands/core.py:1239-1268 | the table and the popped command are exactly `Remove` of the old table |
| CommandsCore.CommandTable.GetCommand | fortnitepy/ext/commands/core.py:1281-1316 | a name without a space is a direct lookup; otherwise the first word is looked up, a non-group is returned as is, and a group is walked word by word, a miss giving `None` |
| Checks.RunChecksSpec | fortnitepy/ext/commands/bot.py:297-313 | running a check list gives `True` exactly when every check is truthy (the empty list included), `False` exactly at a first falsy check after truthy ones, and the first raised exception otherwise |
| Checks.RemoveFirstCount | fortnitepy/ext/commands/bot.py:260-265 | `list.remove` takes out exactly one copy of the check when there is one |
| Checks.RemoveFirstSpec | fortnitepy/ext/commands/bot.py:260-265 | an absent check leaves the list unchanged; otherwise exactly its first occurrence is cut out |
| Checks.AppendThenRemove | fortnitepy/ext/commands/bot.py:228-265 | adding a check that was not there and removing it again gives back the original list |
| Bots.SubmoduleOrder | fortnitepy/ext/commands/bot.py:56-57 | `_is_submodule` is reflexive, transitive and antisymmetric, and a submodule's name starts with its parent's |
| Bots.SubmoduleNeedsDot | fortnitepy/ext/commands/bot.py:56-57 | `foo.bar` lies inside `foo` but `foobar` does not |
| Bots.ValidateOwners | fortnitepy/ext/commands/bot.py:137-141 | giving a truthy `owner_id` together with a non-empty `owner_ids` is a `TypeError` with the source's message; anything else is kept as given |
| Bots.IsOwnerSpec | fortnitepy/ext/commands/bot.py:315-333 | with a truthy `owner_id` only that id is the owner; otherwise the owners are exactly `owner_ids` |
| Bots.NormalisePrefix | fortnitepy/ext/commands/bot.py:711-729 | a string stays one prefix, a non-empty iterable becomes its list, an empty one is a `ValueError`, anything else a `TypeError` naming its class |
| Bots.NormalisePrefixOffers | fortnitepy/ext/commands/bot.py:711-729 | normalisation succeeds exactly for a string or a non-empty iterable, and then offers at least one prefix, namely the given ones |
| Bots.CatchCommandError | fortnitepy/ext/commands/bot.py:877-885 | exactly the command errors are dispatched to the error handler, unchanged; every other exception propagates |
| Bots.LoadSpec | fortnitepy/ext/commands/bot.py:511-573 | an already loaded name fails with `ExtensionAlreadyLoaded` first; every failure is an extension error (never a command error) and leaves the loaded set unchanged; success adds exactly the name |
| Bots.UnloadSpec | fortnitepy/ext/commands/bot.py:575-603 | unloading a name not loaded fails with `ExtensionNotLoaded` and changes nothing; unloading a loaded one removes exactly it, so load then unload restores the set |
| Bots.Bot.constructor | fortnitepy/ext/commands/bot.py:128-150 | a new bot, as built with `help_command=None`, keeps its owners and starts with no checks, no extensions and an empty command table |
| Bots.Bot.New | fortnitepy/ext/commands/bot.py:128-150 | construction fails exactly when the owner validation does, with its error; otherwise a new bot, as built with `help_command=None`, with the given owners, no checks, no extensions and an empty command table |
| Bots.Bot.AddCheck | fortnitepy/ext/commands/bot.py:228-246 | the check is appended to the call-once list or the regular list according to the flag; the other list is unchanged |
| Bots.Bot.RemoveCheck | fortnitepy/ext/commands/bot.py:248-265 | the first occurrence is removed from the chosen list (nothing when absent); the other list is unchanged |
| Bots.Bot.CanRun | fortnitepy/ext/commands/bot.py:297-313 | the result is `RunChecks` of the chosen list, which `RunChecksSpec` characterises |
| Bots.Bot.Invoke | fortnitepy/ext/commands/bot.py:863-892 | without a command, a non-empty invoked word dispatches `CommandNotFound('Command "<word>" is not found')`; with one, failing call-once checks give the `CheckFailure`, a command error from the checks or the command is dispatched, others propagate |
| Bots.Bot.LoadExtension | fortnitepy/ext/commands/bot.py:538-573 | the loaded set and the error are exactly `Load` of the old set; the checks are untouched |
| Bots.Bot.UnloadExtension | fortnitepy/ext/commands/bot.py:575-603 | the loaded set and the error are exactly `Unload` of the old set; the checks are untouched |
| Bots.InvokeDispatchesOnlyCommandErrors | fortnitepy/ext/commands/bot.py:877-892 | only command errors reach the command's error handler, never an extension error, and no command error propagates |
| Contexts.View.constructor | fortnitepy/ext/commands/context.py:157-158 | a view cursor holds the given index and previous index |
| Contexts.CallbackArgsSpec | fortnitepy/ext/commands/context.py:117-131 | the corrected `invoke` passes the cog (when the command has one), then the context, then the caller's remaining arguments one by one in order, and never the command object |
| Contexts.CallbackArgsAsWrittenDropsContext | fortnitepy/ext/commands/context.py:122-131 | as written, invoking a cog-less command `c` with one argument `x` calls the callback with `(c, x)`: the context is missing and the command sits in its place; the corrected call passes `(ctx, x)` |
| Contexts.Context.constructor | fortnitepy/ext/commands/context.py:75-86 | every attribute `__init__` sets holds the value given for it |
| Contexts.Context.New | fortnitepy/ext/commands/context.py:75-86 | `Context(**attrs)`: a missing `prefix` is a `KeyError('prefix')`; otherwise a fresh context holding each given attribute, with `args` defaulting to no arguments, `kwargs` to none, `command_failed` to false and the rest to `None` |
| Contexts.Context.Cog | fortnitepy/ext/commands/context.py:195-204 | `None` without a command, otherwise the command's cog |
| Contexts.Context.Party | fortnitepy/ext/commands/context.py:206-211 | a party exactly for a party message, and then the message's party |
| Contexts.Context.Author | fortnitepy/ext/commands/context.py:213-218 | the message's author; no message is an error |
| Contexts.Context.Me | fortnitepy/ext/commands/context.py:220-226 | the client's party member when in a party, otherwise the bot's user, an error without a bot |
| Contexts.Context.GetDestination | fortnitepy/ext/commands/context.py:228-229 | the party when there is one, otherwise the author (with the author's error) |
| Contexts.Context.InvokeArgs | fortnitepy/ext/commands/context.py:117-131 | no arguments is `TypeError('Missing command to invoke.')`; otherwise the first argument is the command, the context is passed and the callback's arguments end with the caller's arguments after the command |
| Contexts.Context.Reinvoke | fortnitepy/ext/commands/context.py:155-186 | no command is `ValueError('This context is not valid.')` with nothing changed; a command without a view fails on `view.index` with an `AttributeError` and nothing changed; a restart without a prefix fails on `len(None)` with nothing changed; otherwise the root parent (on restart) or the command itself is re-invoked, its exception is passed on, and the command, the view's index and previous index, the invoked word, the invoked subcommand and the passed subcommand are all restored whatever the inner call left behind, while `args`, `kwargs` and `command_failed` keep what the inner call stored there (its argument parsing and its failure flag); the message, prefix and bot never change |
| Contexts.DestinationIsReplyTarget | fortnitepy/ext/commands/context.py:228-229 | the context sends exactly where a reply to its message goes (party chat to the party, a whisper to the author) |
| Contexts.ValidSpec | fortnitepy/ext/commands/context.py:188-204 | a context is valid exactly when it has a prefix and a command, and then its cog is the command's cog |
| Cogs.ValidateCogName | fortnitepy/ext/commands/cog.py:88-99 | a name whose last word parses as an integer is refused with the `NameError`, an empty name fails on `split()[-1]`, any other name is accepted unchanged |
| Cogs.CogNameEndingInNumber | fortnitepy/ext/commands/cog.py:92-99 | every name ending in a space and a number, and every bare number, is refused |
| Cogs.CheckHandlerName | fortnitepy/ext/commands/cog.py:105-139 | an event handler method is refused with a `TypeError` exactly when its name starts with `cog_` or `bot_` |
| Cogs.Handler.constructor | fortnitepy/ext/commands/cog.py:283-306 | a coroutine function starts undecorated, with no recorded event names |
| Cogs.EventEntry | fortnitepy/ext/commands/cog.py:291-296 | the recorded entry is the given event name marked as explicit, or the function's own name marked as not explicit |
| Cogs.Event | fortnitepy/ext/commands/cog.py:260-306 | a non-coroutine is refused with `TypeError('the decorated function must be a coroutine')` and left untouched; a coroutine is marked as a handler and gets exactly one more entry appended |
| Cogs.StripEventPrefix | fortnitepy/ext/commands/cog.py:328-337 | an entry whose name was not given and starts with the bot's event prefix loses exactly that prefix; every other entry is kept; the method name and the flag never change |
| Cogs.RegisterEach | fortnitepy/ext/commands/cog.py:310-315 | registration stops at the first top-level command that cannot be added, reporting how many went in before it; no error means all went in |
| Cogs.RegisterRollbackRestores | fortnitepy/ext/commands/cog.py:310-319 | after a failed registration, removing the commands registered before the failure by name gives back exactly the table the bot had before |
| Cogs.UnregisterAsWrittenKeepsCommands | fortnitepy/ext/commands/cog.py:316-319 | as written the undo passes the command object to `remove_command`: with `x` taken, injecting `a` then `x` fails on `x` and leaves `a` registered, while undoing by name restores the table |
| Cogs.RegisterEachAppend | fortnitepy/ext/commands/cog.py:310-315 | registering a list in two parts registers the second part on the table the first part left, unless the first part already failed |
| Cogs.RegisterFailsEarly | fortnitepy/ext/commands/cog.py:310-319 | a failure within a prefix of the commands is the failure of the whole list, with the same commands registered before it |
| Cogs.UnregisterEachAppend | fortnitepy/ext/commands/cog.py:346-350 | removing a list of commands by name in two parts is removing it in one go |
| Cogs.RegisterUnregisterRoundTrip | fortnitepy/ext/commands/cog.py:307-350 | ejecting the commands of a successful injection gives back the bot's table as it was before |
| Cogs.TopLevel | fortnitepy/ext/commands/cog.py:201-209 | exactly the commands without a parent, none added, order kept (`TopLevelAppend`) |
| Cogs.TopLevelAppend | fortnitepy/ext/commands/cog.py:201-209 | the parentless commands of two lists joined are those of each list joined |
| Cogs.YieldsGrow | fortnitepy/ext/commands/cog.py:229-239 | a group's walk yields each of its registered commands, and walking one level deeper loses nothing |
| Cogs.WalkCommandsSpec | fortnitepy/ext/commands/cog.py:229-239 | the cog's walk yields every top-level command and every command registered in a top-level group, and anything else it yields lies below a top-level group |
| Cogs.Cog.constructor | fortnitepy/ext/commands/cog.py:178-199 | a cog holds its name, commands, handler entries and overridden bot checks as given |
| Cogs.Cog.GetCommands | fortnitepy/ext/commands/cog.py:201-209 | the cog's commands without a parent, and every such command is among them |
| Cogs.Cog.RegisterCommands | fortnitepy/ext/commands/cog.py:310-315 | every command visited is tagged with the cog, the bot's table becomes what registering the top-level commands in order gives, the error is wrapped as a command error, and parents never change |
| Cogs.Cog.Inject | fortnitepy/ext/commands/cog.py:307-342 | a failed registration raises the command's error and leaves the bot's table, checks and the cog's handler entries as they were; success registers every top-level command, appends the overridden `bot_check` and `bot_check_once`, and strips the event prefix from each handler entry |
| Cogs.Cog.Eject | fortnitepy/ext/commands/cog.py:344-363 | the top-level commands are removed by name and the overridden bot checks removed (first occurrence each); the bot's extensions are untouched |
| Cogs.RegisterStep | fortnitepy/ext/commands/cog.py:313-315 | one more top-level command is registered on top of the ones before it, with the command's own fields unchanged |
| Cogs.StripPrefixes | fortnitepy/ext/commands/cog.py:328-337 | the rebuilt handler list has the same length and each entry is the old one with the prefix stripped where it applies |
| Cogs.UnregisterAll | fortnitepy/ext/commands/cog.py:316-318 | the table becomes the old table with each listed command removed by name, in order |
| Converters.HexRun | fortnitepy/ext/commands/converter.py:81 | the length of the run of hex digits the text starts with: all of them hex digits, the next one not |
| Converters.IdMatch | fortnitepy/ext/commands/converter.py:79-84 | `([0-9a-fA-F]{32})$` matched from the start: exactly 32 hex digits, optionally followed by one final newline, and then the 32 digits are the group |
| Converters.IdMatchOfId | fortnitepy/ext/commands/converter.py:79-84 | a 32-digit hex id matches as itself alone or with one trailing newline, and not with any other character or a second newline after it |
| Converters.HexRunAtLeast | fortnitepy/ext/commands/converter.py:81 | text starting with `k` hex digits has a hex run of at least `k` |
| Converters.LookupId | fortnitepy/ext/commands/converter.py:100-101 | an id-shaped argument is looked up by its 32-digit group lower-cased, anything else has no id key |
| Converters.ConvertUser | fortnitepy/ext/commands/converter.py:96-110 | the user is fetched by the lower-cased id for an id-shaped argument and by the argument itself otherwise; nothing found is `BadArgument('User "<arg>" not found')` |
| Converters.FindByDisplayName | fortnitepy/ext/commands/converter.py:130-133 | the first cached entry whose display name equals the argument ignoring case, and nothing exactly when none does |
| Converters.FindById | fortnitepy/ext/commands/converter.py:136-161 | a cached entry with the id, and nothing exactly when no entry has it |
| Converters.Convert | fortnitepy/ext/commands/converter.py:123-171 | an id-shaped argument is found exactly when an entry has the lower-cased id; any other argument exactly when some entry's display name matches ignoring case, and then the first such; otherwise `BadArgument` naming the argument |
| Converters.ConvertPartyMember | fortnitepy/ext/commands/converter.py:123-141 | the lookup above over the party's members, failing with `BadArgument('Party member "<arg>" not found')` |
| Converters.ConvertFriend | fortnitepy/ext/commands/converter.py:154-171 | the lookup above over the friend cache, failing with `BadArgument('Friend "<arg>" not found')` |
| Converters.IdShapedIgnoresDisplayName | fortnitepy/ext/commands/converter.py:128-137 | an id-shaped argument is never matched against display names, even one equal to it |
| Converters.GreedyOf | fortnitepy/ext/commands/converter.py:180-197 | `Greedy[...]` accepts exactly one argument that is callable, a `Converter` or a typing construct and not `str`, `NoneType` or `_Greedy`, each refusal with its own `TypeError` |
| Converters.GreedyRefusals | fortnitepy/ext/commands/converter.py:180-197 | `Greedy[str]`, `Greedy[NoneType]`, `Greedy[_Greedy]`, `Greedy[Greedy]` and two arguments are refused with the source's messages, and any other callable is accepted |
| Schemas.Lookup | fortnitepy/party.py:417-419 | `schema.get(prop)`: nothing exactly when no entry has the key, otherwise the value of an entry with it |
| Schemas.LookupOfEntry | fortnitepy/party.py:417-419 | in a dict each entry's value is what `get` returns for its key |
| Schemas.Put | fortnitepy/party.py:404-414 | `schema[prop] = v` keeps the size or grows it by one |
| Schemas.PutLookup | fortnitepy/party.py:404-414 | after `schema[prop] = v` the key holds `v` and every other key what it held |
| Schemas.PutShape | fortnitepy/party.py:404-414 | assignment keeps every key in its place, adds the key only when new, introduces no other entry and keeps the keys distinct |
| Schemas.Delete | fortnitepy/party.py:433-439 | deleting never grows the schema |
| Schemas.DeleteLookup | fortnitepy/party.py:433-439 | after `del schema[prop]` (a missing key ignored) the key is absent and every other key holds what it held |
| Schemas.DeleteShape | fortnitepy/party.py:433-439 | deleting keeps only entries that were there, changes nothing for a missing key and keeps the keys distinct |
| Schemas.DeleteAll | fortnitepy/party.py:449-454 | deleting several keys never grows the schema |
| Schemas.DeleteAllLookup | fortnitepy/party.py:449-454 | after `remove(keys)` each listed key is absent and every other key holds what it held |
| Schemas.SliceBound | fortnitepy/party.py:456-457 | Python's `[:max]` bound: everything for `None`, at most `max` for a non-negative one, all but the last `-max` for a negative one, never below 0 |
| Schemas.Suffix | fortnitepy/party.py:410-423 | `prop[-1:]`: the last character, or the empty text for an empty key |
| Schemas.IntOf | fortnitepy/party.py:413-430 | `int(v)`: an integer is itself, a bool is 0 or 1, a text succeeds exactly when it parses as an integer, `None`, lists and dicts raise `TypeError` |
| Schemas.Encode | fortnitepy/party.py:402-415 | raw values and keys not ending in `j` or `U` store `str(value)`; `j` stores JSON, `U` stores `int(value)`; only a non-raw `U` whose `int()` fails raises |
| Schemas.Decode | fortnitepy/party.py:417-431 | a `b` key reads false exactly when missing or holding "false" in any case; a missing key reads `{}`, `0` or `''` by suffix; only decoding received text under a `j` or `U` key can fail |
| Schemas.Staged | fortnitepy/party.py:441-447 | each item paired with what `set_prop` would store for it |
| Schemas.PutEach | fortnitepy/party.py:446-447 | the assignments raise exactly when one of the staged values is an exception, and then with that exception |
| Schemas.SetAll | fortnitepy/party.py:441-447 | `update` raises exactly when one item's `set_prop` raises, and then with that item's exception |
| Schemas.SetAllStep | fortnitepy/party.py:446-447 | an update is the update of all but the last item, followed by the last item's `set_prop` |
| Schemas.PutEachErrorSticks | fortnitepy/party.py:446-447 | once an assignment raised, the later ones change nothing |
| Schemas.SetAllNext | fortnitepy/party.py:446-447 | the next item of an update that has not raised either raises, and the whole update ends there with that exception, or is stored on top of what came before |
| Schemas.SetAllErrorSticks | fortnitepy/party.py:446-447 | once an item raised, the items after it change nothing |
| Schemas.PutEachKeepsOthers | fortnitepy/party.py:446-447 | a key no assignment names keeps its value |
| Schemas.PutEachSetsLast | fortnitepy/party.py:446-447 | without an exception, each named key holds the value of its last assignment |
| Schemas.SetAllKeepsOthers | fortnitepy/party.py:441-447 | after `update`, a key it does not name keeps its value |
| Schemas.SetAllSetsLast | fortnitepy/party.py:441-447 | after an `update` that did not raise, each named key holds the stored form of its last value |
| Schemas.RawUpdate | fortnitepy/party.py:402-447 | a raw update never raises and leaves `str(value)` under each named key |
| Schemas.SetThenGet | fortnitepy/party.py:402-431 | reading back what `set_prop` stored gives the value for `j`, `int(value)` for `U`, false exactly for "false" in any case for `b`, and `str(value)` otherwise |
| Schemas.RawIntRoundTrip | fortnitepy/party.py:402-429 | an integer written raw under a `U` key reads back as itself |
| Parties.MetaBase.constructor | fortnitepy/party.py:399-400 | a new meta starts with an empty schema |
| Parties.MetaBase.SetProp | fortnitepy/party.py:402-415 | stores and returns what `Encode` gives, the key holding it and every other key unchanged; on an exception nothing changes; the schema stays a dict of well-typed values |
| Parties.MetaBase.GetProp | fortnitepy/party.py:417-431 | the non-raw read: `b` keys false exactly when missing or "false" in any case, missing keys read as the empty value of their kind, only received text can fail to decode |
| Parties.MetaBase.DeleteProp | fortnitepy/party.py:433-439 | the key is removed if present, every other key unchanged, and the key is returned |
| Parties.MetaBase.Update | fortnitepy/party.py:441-447 | `None` changes nothing; otherwise the schema and the exception are those of `set_prop` applied item by item, stopping at the first exception |
| Parties.MetaBase.Remove | fortnitepy/party.py:449-454 | every listed key is deleted, missing ones ignored; every other key keeps its value and order |
| Parties.MetaBase.GetSchema | fortnitepy/party.py:456-457 | a prefix of the schema in insertion order, as long as Python's slice `[:max]` says, the whole schema for `None` |
| Parties.SetPropThenGetProp | fortnitepy/party.py:402-431 | what `set_prop` stored under a key, `get_prop` reads back as the value (`j`), `int(value)` (`U`), its truth (`b`) or `str(value)` |
| Parties.NamesOf | fortnitepy/party.py:252-255 | the qualified names of the partials, one per partial in order |
| Parties.Dedup | fortnitepy/party.py:250-257 | the `names`/`results` loop keeps at most as many partials as it was given |
| Parties.DedupNames | fortnitepy/party.py:250-257 | the kept partials cover exactly the qualified names of the input |
| Parties.DedupDistinct | fortnitepy/party.py:250-257 | the kept partials have distinct qualified names |
| Parties.DedupSound | fortnitepy/party.py:250-257 | each kept partial is the first of its name in the input |
| Parties.DedupComplete | fortnitepy/party.py:250-257 | the first partial of each name is kept |
| Parties.ReversedAppend | fortnitepy/party.py:250 | `[*meta[::-1], *self.meta[::-1]]` is the reversal of the old partials followed by the new ones |
| Parties.FirstOfReversed | fortnitepy/party.py:250 | the first partial of a name in the reversed list is the last one of it in the list |
| Parties.DedupReversedSound | fortnitepy/party.py:250-257 | each partial kept from the reversed list is the last of its name |
| Parties.DedupReversedComplete | fortnitepy/party.py:250-257 | the last partial of each name survives de-duplicating the reversed list |
| Parties.DedupReversed | fortnitepy/party.py:250-257 | de-duplicating the reversed list keeps exactly the last partial of each name, one per name |
| Parties.UpdateMetaKeepsNew | fortnitepy/party.py:246-262 | the merged meta has one partial per name, and the last new partial of each new name is kept |
| Parties.UpdateMetaKeepsOld | fortnitepy/party.py:246-262 | for a name no new partial has, the last existing partial with it is kept |
| Parties.UpdateMetaOrigin | fortnitepy/party.py:246-262 | every kept partial was an existing or a new one, and a kept partial with a new name is a new one |
| Parties.ReversedAllCoroutines | fortnitepy/party.py:258-260 | reversing changes nothing about whether every partial is of a coroutine function |
| Parties.MergedAllCoroutines | fortnitepy/party.py:250-260 | the merged list is all coroutines exactly when the old and the new partials are |
| Parties.NamesOfSnoc | fortnitepy/party.py:254-255 | appending a partial appends its name to the names |
| Parties.DedupCoroutines | fortnitepy/party.py:250-260 | the loop finishes exactly when every partial is of a coroutine function, and then keeps the first partial of each name in order |
| Parties.DefaultPartyMemberConfig.constructor | fortnitepy/party.py:240-244 | `yield_leadership` defaults to false, `offline_ttl` to 30, `meta` to an empty list |
| Parties.DefaultPartyMemberConfig.UpdateMeta | fortnitepy/party.py:246-262 | a partial that is not of a coroutine function raises `TypeError('meta must be list containing partials of coroutines')` and leaves `meta` as it was; otherwise `meta` becomes the merge, later partials winning per name; the other settings never change |
| Parties.MergedConfig | fortnitepy/party.py:130-149 | `{**default, **self._config, **config, **to_update}`: every given key holds its value, an enumeration member replaced by its `.value`; every other configured key keeps its value; the defaults fill in the rest and no other key appears |
| Parties.PrivacyArg | fortnitepy/party.py:151-153 | the first argument that is a `PartyPrivacy` member, none exactly when no argument is one |
| Parties.PrivacyUpdatedSettings | fortnitepy/party.py:151-166 | a privacy member among the arguments sets `privacy` to its value and discoverability and joinability to `INVITED_ONLY`/`INVITE_AND_FORMER` exactly for a private party type, to `ALL`/`OPEN` otherwise; other keys keep their settings; without one nothing changes |
| Parties.FirstPrivacy | fortnitepy/party.py:172-180 | the `ClientParty.set_privacy` partial the loop applies: none exactly when no partial has that name |
| Parties.FirstPrivacyIndex | fortnitepy/party.py:172-180 | the applied `set_privacy` partial is the first with its name |
| Parties.FirstPrivacyKept | fortnitepy/party.py:168-191 | the `set_privacy` partial whose arguments are applied is the one `update_meta` keeps, and the only kept partial of that name |
| Parties.Reached | fortnitepy/party.py:172-189 | the partials the loop visits form a prefix of the list |
| Parties.ReachedStop | fortnitepy/party.py:186-189 | the loop visits the partials up to and including the first that is not of a coroutine function |
| Parties.ReachedAll | fortnitepy/party.py:172-189 | with only coroutine functions the loop visits every partial |
| Parties.DefaultPartyConfig.constructor | fortnitepy/party.py:113-120 | `team_change_allowed` defaults to true and `meta` to no partials; the other keyword arguments are merged into the defaults as `update` does |
| Parties.DefaultPartyConfig.Update | fortnitepy/party.py:130-149 | the settings become `MergedConfig` of the old settings and the given ones; nothing else changes |
| Parties.DefaultPartyConfig.UpdatePrivacy | fortnitepy/party.py:151-166 | the settings become `PrivacyUpdated` of the old ones: only the first privacy member among the arguments is applied |
| Parties.DefaultPartyConfig.DedupApplyingPrivacy | fortnitepy/party.py:172-189 | the loop finishes exactly when every partial is of a coroutine function, then keeping the first partial of each name; the settings are updated from the first `set_privacy` partial it reached, whether or not it finished |
| Parties.DefaultPartyConfig.UpdateMeta | fortnitepy/party.py:168-191 | as for the member configuration, a non-coroutine partial raises `TypeError` and leaves `meta` as it was, otherwise `meta` becomes the merge; in both cases the settings carry the privacy of the first `set_privacy` partial reached, newest first |
| Parties.Gathered | fortnitepy/party.py:319-335 | the coroutines `_edit` gathers: one per qualified name, exactly the last one passed of each |
| Parties.HasKeySnoc | fortnitepy/party.py:342-350 | a key is among the first `i+1` entries exactly when it is among the first `i` or is entry `i` |
| Parties.SchemaDiff | fortnitepy/party.py:337-352 | `updated` holds exactly the keys of the old schema whose value changed, with their new value; `deleted` lists exactly the old keys that are gone; keys the edits added are in neither |
| Parties.PartyMember.constructor | fortnitepy/party.py:1113-1117 | a member holds its id and role |
| Parties.FirstLeader | fortnitepy/party.py:2645-2650 | `leader`: the first member whose role is captain, and none exactly when no member is captain |
| Parties.MaxSizeError | fortnitepy/party.py:3479-3486 | a non-leader is refused with `Forbidden` first, then a size below the member count, then a size outside 1..16, each with the source's message; no error exactly when all three checks pass |
| Parties.MaxSizeAccepted | fortnitepy/party.py:3479-3486 | an accepted size lies between the member count and 16 and is at least 1 |
| Parties.ClientParty.constructor | fortnitepy/party.py:2879-2890 | a party holds its members, its client member and its meta, with an empty configuration cache |
| Parties.ClientParty.UpdateRoles | fortnitepy/party.py:2749-2753 | the new leader becomes captain, every other member loses its role, so it is the only captain and the party's leader |
| Parties.ClientParty.ConstructSquadAssignments | fortnitepy/party.py:3143-3197 | writes the corrected squad assignments of the party's members under `Default:RawSquadAssignments_j`, with the schema's other keys unchanged, and returns that key and value |
| Parties.ClientParty.SetMaxSize | fortnitepy/party.py:3458-3494 | a refused size changes nothing; an accepted one is sent as `{'max_size': size}` (the patch then empties the configuration cache) or, while an edit holds the lock, added to the configuration cache |
| Squads.Bound | fortnitepy/party.py:3148 | a position above every position asked for, so the counter's search ends |
| Squads.FreeFrom | fortnitepy/party.py:3164-3169 | the `while i in taken_pos` search: the first position at or after the start that is not asked for, every position skipped being asked for |
| Squads.Insert | fortnitepy/party.py:3185 | one insertion step of the stable sort adds exactly one entry |
| Squads.SortByPos | fortnitepy/party.py:3185 | `sorted(new, key=position)` keeps the number of entries |
| Squads.Construct | fortnitepy/party.py:3146-3195 | the loops of `construct_squad_assignments` (as corrected) compute exactly `Squad`: the explicit entries and the renumbered existing ones sorted by position, then the remaining members placed after the last position |
| Squads.FromJson | fortnitepy/party.py:988-995 | reading the `RawSquadAssignments` list back yields one entry per JSON object |
| Squads.JsonRoundTrip | fortnitepy/party.py:988-995 | the assignments `set_squad_assignments` writes are the ones `squad_assignments` reads back |
| Squads.RenumberedEntry | fortnitepy/party.py:3171-3183 | each renumbered entry belongs to a current member with an existing entry and no position asked for, at or after the counter's start |
| Squads.RenumberedComplete | fortnitepy/party.py:3171-3183 | every existing entry of a current member that was not given a position is renumbered |
| Squads.RenumberedPositions | fortnitepy/party.py:3162-3183 | the renumbered positions increase strictly from the start, and every one after the first is a position not asked for |
| Squads.RenumberedDistinct | fortnitepy/party.py:3171-3183 | existing entries with distinct ids are renumbered with distinct ids |
| Squads.ToAssignMember | fortnitepy/party.py:3149-3153 | a member is left to assign exactly when it is current and not excluded |
| Squads.ToAssignDistinct | fortnitepy/party.py:3149-3153 | distinct members give a `to_assign` list without repeats |
| Squads.InsertPerm | fortnitepy/party.py:3185 | an insertion step adds exactly the one entry and loses none |
| Squads.InsertSorted | fortnitepy/party.py:3185 | inserting into a list sorted by position keeps it sorted |
| Squads.InsertDistinctIds | fortnitepy/party.py:3185 | inserting an entry with a new id keeps the ids distinct |
| Squads.InsertDistinctPositions | fortnitepy/party.py:3185 | inserting an entry at a new position keeps the positions distinct |
| Squads.SortPerm | fortnitepy/party.py:3185 | the sort is a permutation of its input |
| Squads.SortSorted | fortnitepy/party.py:3185 | the sort orders the entries by position |
| Squads.SortDistinctIds | fortnitepy/party.py:3185 | sorting keeps distinct ids distinct |
| Squads.SortDistinctPositions | fortnitepy/party.py:3185 | sorting keeps distinct positions distinct |
| Squads.SquadKeepsExplicit | fortnitepy/party.py:3156-3160 | every position asked for appears in the result as asked |
| Squads.SquadPlacesMembers | fortnitepy/party.py:3146-3195 | every current member of the party gets an entry |
| Squads.SquadOnlyPlaces | fortnitepy/party.py:3146-3195 | only current members and ids given a position get an entry |
| Squads.DistinctIdsConcat | fortnitepy/party.py:3185-3195 | two lists with distinct ids and no id in common join into a list with distinct ids |
| Squads.SquadDistinctIds | fortnitepy/party.py:3146-3195 | with one position asked per id, distinct members and existing entries with distinct ids, the corrected result has one entry per id |
| Squads.SquadDistinctPositions | fortnitepy/party.py:3146-3195 | with distinct positions asked for, the corrected result has one entry per position |
| Squads.SquadSorted | fortnitepy/party.py:3185-3195 | the whole result, members placed after the sorted entries included, is ordered by position |
| Squads.SquadAsWrittenPositionClash | fortnitepy/party.py:3162-3183 | as written, with `b` asked to be at 0 and `a` existing, `a` is renumbered to 0 as well; the corrected counter puts `a` at 1 |
| Squads.SquadAsWrittenPlacesTwice | fortnitepy/party.py:3149-3195 | as written, a current member asked to be at 2 without an existing entry is placed at 2 and again at 3; corrected, only at 2 |
| Kairos.NewAvatar | fortnitepy/kairos.py:63-70 | the asset is kept; a preset is stored as its list of colours, a list as given, none as none |
| Kairos.PresetIsItsColors | fortnitepy/kairos.py:63-70 | an avatar made with a preset is the avatar made with the preset's colours |
| Kairos.Get | fortnitepy/kairos.py:82-103 | a key is absent from the dictionary exactly when no entry has it |
| Kairos.ToDictEntries | fortnitepy/kairos.py:82-103 | `to_dict()` always holds `appInstalled: "init"`; `avatar` (the lower-cased asset) exactly when the asset is truthy; `avatarBackground` exactly when the colour list is truthy; no other key |
| Kairos.JsonStringPlain | fortnitepy/kairos.py:96-97 | `json.dumps` writes a string of printable ASCII without quote or backslash unchanged between its quotes |
| Kairos.RemoveAllConcat | fortnitepy/kairos.py:101 | removing spaces from joined text is joining the texts with their spaces removed |
| Kairos.RemoveSpacesJoin | fortnitepy/kairos.py:97-101 | removing spaces from a `", "`-joined list joins the space-free parts with `","` |
| Kairos.BackgroundCompact | fortnitepy/kairos.py:95-101 | for plain colours, `avatarBackground` is `["A","B","C"]`: each colour upper-cased, spaces removed, quoted and comma-joined in brackets |
| Kairos.AssetCaseIgnored | fortnitepy/kairos.py:76-93 | avatars whose assets differ only in case are equal |
| Kairos.EmptyIsNone | fortnitepy/kairos.py:76-95 | an empty asset equals no asset, and an empty colour list equals no colours |
| Kairos.AssetsDistinguish | fortnitepy/kairos.py:76-93 | a truthy asset and a missing, empty or differently spelled (ignoring case) one make unequal avatars |
| Kairos.ColorsDistinguish | fortnitepy/kairos.py:76-101 | a truthy colour list and a missing, empty or differently rendered one make unequal avatars |
| Playlists.NewPlaylist | fortnitepy/playlist.py:35-42 | a missing `image` raises `KeyError('image')` first, then a missing `playlist_name` raises `KeyError('playlist_name')`; otherwise both are kept, and each optional field (`special_border`, `_type`, `violator`, `display_subname`, `description`) holds the dictionary's value when present and `None` when missing |
| Playlists.SpecialBorder | fortnitepy/playlist.py:73-80 | never the text "None": it reads as none, and any other value is returned as stored |
| Playlists.Violator | fortnitepy/playlist.py:82-91 | never the empty text: it reads as none, and any other value is returned as stored |
| Playlists.NormaliseIdempotent | fortnitepy/playlist.py:73-91 | reading a normalised border or violator back through the same rule changes nothing |
| Playlists.ToStr | fortnitepy/playlist.py:44-45 | `str(p)` is the internal name when it is text, and a `TypeError` otherwise |
| Playlists.EqualityLaws | fortnitepy/playlist.py:51-56 | `==` is reflexive, symmetric and transitive, ignores every field but the internal name, `!=` is its negation, and for text names equality is equality of `str()` |
| Playlists.SameNameEqual | fortnitepy/playlist.py:35-53 | playlists built from data with the same `playlist_name` are equal |
| HttpErrors.ValidationFailureOf | fortnitepy/errors.py:166-171 | `ValidationFailure(data)` on a non-dict raises `TypeError` |
| HttpErrors.ValidationFailureReads | fortnitepy/errors.py:166-171 | `ValidationFailure(data)` on a dict raises `KeyError` for the first of `fieldName`, `errorMessage`, `errorCode`, `messageVars` that is missing, and otherwise keeps those four and `invalidValue` (none when missing) |
| HttpErrors.Required | fortnitepy/errors.py:167-171 | `data[key]`: the value when present, `KeyError(key)` otherwise |
| HttpErrors.Failures | fortnitepy/errors.py:228-230 | the list comprehension succeeds exactly when every failure builds, keeping them all in order; otherwise it raises the first failing entry's exception |
| HttpErrors.Values | fortnitepy/errors.py:229 | `.values()`: the dict's values in order |
| HttpErrors.FailuresOf | fortnitepy/errors.py:226-232 | no `validationFailures` gives none; a value without `.values()` raises `AttributeError`; a dict gives the failures built from its values |
| HttpErrors.NewHttpException | fortnitepy/errors.py:208-244 | each field is read from the body when it is a dict (none when missing, `messageVars` defaulting to an empty list), from nothing otherwise; a validation failure that cannot be built is raised; the text is `Code: "<code>" - <fmt>` with the status in `fmt` only when there is no code |
| HttpErrors.NonDictBody | fortnitepy/errors.py:218-242 | a body that is not a dict gives every field none, `messageVars` empty, and the text `Code: "None" - <status> - None` |
| HttpErrors.UpTo | fortnitepy/errors.py:239-242 | the text before the first occurrence of a character is a prefix without it |
| HttpErrors.UpToConcat | fortnitepy/errors.py:239-242 | the text before the first occurrence of `c` in `a + b` is `a` when `a` has no `c` and `b` starts with it |
| PyText.EscapeChar | fortnitepy/ext/commands/errors.py:356-357 | each character `{!r}` writes inside quotes is either the character itself or an escape of two or more characters starting with a backslash, never a lone backslash; a character is written as itself exactly when it is not the backslash, not the quote and not one of the characters below U+0100 Python does not print |
| PyText.IntToStringWord | fortnitepy/errors.py:237 | a status written out is one word: not empty, no space or other white space |
| HttpErrors.TextReadsCode | fortnitepy/errors.py:234-242 | the error code (text without a quote) can be read back from the exception's text |
| HttpErrors.TextReadsStatus | fortnitepy/errors.py:234-242 | without an error code, the text shows `None` as the code and the status can be read back from it |
| HttpErrors.TextEndsWithMessage | fortnitepy/errors.py:234-242 | the text ends with the message |

## Findings

| source | as written | input that shows it | evidently intended | confidence | as-written member | corrected member |
|---|---|---|---|---|---|---|
| fortnitepy/ext/commands/core.py:1229-1237 | `add_command` writes the name and then each alias, and raises at the first alias already taken, so the name and the earlier aliases stay registered | a table holding only `b`; add command `a` with alias `b` | a failed `add_command` leaves the table unchanged | high (not executed) | CommandsCore.AddAsWrittenNotAtomic | CommandsCore.AddSpec |
| fortnitepy/ext/commands/cog.py:316-319 | the rollback of `_inject` calls `bot.remove_command(to_undo)` with the command object, not its name, so nothing is removed (and a case-insensitive table raises on `casefold`) | bot table `{x}`; cog commands `a` then `x` | the commands registered before the failure are removed again | high (not executed) | Cogs.UnregisterAsWrittenKeepsCommands | Cogs.RegisterRollbackRestores |
| fortnitepy/ext/commands/context.py:122-131 | `invoke` builds `arguments` (cog, context, remaining arguments) but calls `command.callback(*args)`, so the callback gets the command object instead of the context; `arguments` also appends `args[1:]` as one tuple | cog-less command `c`, `ctx.invoke(c, x)` | the callback is called with the cog (if any), the context and the remaining arguments one by one | high (not executed) | Contexts.CallbackArgsAsWrittenDropsContext | Contexts.CallbackArgsSpec |
| fortnitepy/party.py:3162-3183 | the counter `i` starts at 0 without skipping positions asked for, so a renumbered member can land on a position given in `new_positions` | `new_positions={"b": 0}`, existing `[a@0, b@1]`, members `[a, b]` gives `a@0` and `b@0` | every position in the result is held by one member | medium (not executed) | Squads.SquadAsWrittenPositionClash | Squads.SquadDistinctPositions |
| fortnitepy/party.py:3149-3195 | `to_assign` leaves out only members with an existing entry, so a member given a position in `new_positions` but without an existing entry is placed twice | `new_positions={"c": 2}`, no existing entries, members `[c]` gives `c@2` and `c@3` | every member has one entry | medium (not executed) | Squads.SquadAsWrittenPlacesTwice | Squads.SquadDistinctIds |

The model uses the corrected definitions: `CommandsCore.Add`
(`CommandTable.AddCommand`), the rollback by name in `Cogs.Cog.Inject`,
`Contexts.CallbackArgs` in `Context.InvokeArgs`, and `Squads.Squad` in
`Parties.ClientParty.ConstructSquadAssignments`.

Where the documentation and the code disagree, the model follows the code:

- `short_doc` falls back to `help` only when `brief` is `None`, not when it
  is empty (fortnitepy/ext/commands/core.py:995-1004).

`ConversionError` never calls its base class's `__init__`
(fortnitepy/ext/commands/errors.py:287-289), so Python keeps its two
constructor arguments as its `args`, and its text is the `repr` of that
tuple. The model builds its message that way.

## Left out

- Network, XMPP and HTTP I/O are left out. This covers the `patch` request with its retry on a stale revision, the presence updates, `fetch_user`, and `send`. A reply is modelled as its target and content.
- Concurrency is left out: the waiting path of `_Semaphore` (futures and the waiter deque), `MaybeLock`, and the asyncio locks and events. A failed non-waiting acquire is an outcome, not a suspension, and the edit lock is a flag.
- The clock is a parameter: `time.time()` is the `clock` argument of `Cooldowns.Now`.
- Times and periods in `cooldown.py` are Python floats; the model computes with exact reals, so `per - (current - window)` and `current > window + per` carry no rounding error.
- CommandErrors.Message: the `repr` of a converter and of the original exception in a `ConversionError` is given as text (`reprText`), since it depends on the object's module, address or own `__repr__`. `repr` of text escapes the characters below U+0100 Python does not print (controls, DEL, no-break space, soft hyphen) but leaves the unprintable characters above U+00FF (such as U+2028) as they are, where Python writes `\uNNNN`. The retry time of `CommandOnCooldown` is rounded to hundredths exactly, ties to even, which is what `'{:.2f}'` does with the exact binary value of a float; the value itself comes from real arithmetic.
- The extension import machinery is left out. This covers `importlib`, `sys.modules`, `_remove_module_references`, `_call_module_finalizers`, and the `setup`/`teardown` calls. Only the loaded/not-loaded guards and the resulting set of loaded names are modelled.
- A callable prefix is left out: calling the user's function is foreign code. The normalisation of its result is modelled.
- Python reflection is left out. This covers `inspect.signature`, annotation evaluation, the MRO walk of `CogMeta.__new__`, and `iscoroutinefunction` / `__qualname__`. Parameters, handlers and partials are given as descriptors with those facts as fields.
- `CogMeta.__new__`'s collection of commands and handlers across base classes is left out. So are the copies that `Cog.__new__` makes with `_update_copy` and the re-parenting of subcommands. A cog is given its commands and handler entries.
- Listener registration by `_inject` / `_eject` (`add_event_handler` / `remove_event_handler`), `cog_unload`, and `command.instance` are left out. They are calls into the event system.
- Cogs.Yields: `walk_commands` is modelled to a given depth (`depth`), and only as membership, because a command table iterates over a dict whose order the model does not keep.
- Text is ASCII-only: `lower`, `upper` and `casefold` map only `A`-`Z`/`a`-`z`, and `split` splits only on ASCII whitespace. There is no Unicode case folding or normalisation.
- JSON is symbolic. A schema value set under a `j` key is stored as the value and read back as itself. Text received from the service is decoded by a given function. Only the avatar colour list is written out as JSON text, and that assumes `json.dumps` with its default separators.
- Python dicts are association lists with distinct keys that keep insertion order. Dict equality ignores order, but `Kairos.ToDict` fixes one order, so two avatars are equal exactly when their dictionaries are equal in that order. This matches Python because `to_dict` always inserts the keys in the same order.
- Comparing an `Avatar` or a `Playlist` with an object of another class is left out. Those comparisons are always false in the source.
- The squad assignments are given to `Parties.ClientParty.ConstructSquadAssignments` as a list. Reading them from the party meta is `Squads.FromJson`, with `Squads.JsonRoundTrip` for the written form.
- `ClientParty._update_roles` also sets the client's own member to captain when it is the new leader. The model treats the client's member as one of the party's members, which is already covered.
- Only the status of the HTTP response is kept: headers and the response object are left out.
- HttpErrors.ValidationFailureOf: a non-dict entry raises `TypeError` with a generic message, not the exact text Python gives for each type.
- The recursion that makes a case-insensitive table case-insensitive all the way down (`recursively_make_case_insensitive`) is left out. Each table carries its own flag.
- In `can_run`, swapping and restoring `ctx.command` is left out, and so is the type check on the `owner_ids` collection. The owners are given as a set.
- Parties.DefaultPartyConfig: `cls` and `_inject_client` are left out (the client is not part of this model), and so is the party confirmation check of the `config` property. The settings are a map, so their key order is not kept. The `.value`s of the enumeration members are given as a `PartyEnumValues` record, because `fortnitepy/enums.py` is not part of this model. A `PartyPrivacy` value is assumed to be a dict; one that is not counts as not private.
- `CooldownMapping.copy` and `CooldownMapping.update_rate_limit` are left out. They only forward to `Cooldown.copy` / `Cooldown.update_rate_limit`, which are modelled.
- Contexts.Context.Reinvoke: the `AttributeError` for a missing view carries the attribute name, as all modelled `AttributeError`s do, not Python's full text. The inner `reinvoke` of the command and its hooks are a parameter (the state it leaves, including the arguments `_parse_arguments` stores and the `command_failed` flag, and the exception it raises). The `view.get_word()` call on restart is left out because the string view is not part of this model.
- Bots.Bot.constructor and Bots.Bot.New model `Bot(..., help_command=None)`. By default (`help_command=_default`, bot.py:129 and 158-159) the bot installs a `FortniteHelpCommand`, whose `_add_to_bot` registers a `help` command in the table. So a default bot's table holds that entry and is not empty. The help command module is not part of this model.
- The `{:.4f}` corruption value in `party.py` and the party member's random default name are left out: they are floating point and randomness.
