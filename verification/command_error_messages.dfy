/** What the formatted messages of the error taxonomy say about their
    payloads. */
module CommandErrorMessages {
  import opened Wrappers
  import opened PyText
  import opened CommandTypes
  import opened CommandErrors

  lemma Affixes(a: string, b: string)
    ensures StartsWith(a + b, a) && EndsWith(a + b, b)
  {
    assert (a + b)[..|a|] == a;
    assert (a + b)[|a + b| - |b|..] == b;
  }

  /** The message of `MissingRequiredArgument` names the parameter, and two
      such messages agree exactly when the parameter names do. */
  lemma {:induction false} MissingArgumentMessage(p: Parameter, q: Parameter)
    ensures StartsWith(Message(MissingRequiredArgument(p)), p.name)
    ensures EndsWith(Message(MissingRequiredArgument(p)), " is a required argument that is missing.")
    ensures Message(MissingRequiredArgument(p)) == Message(MissingRequiredArgument(q)) <==> p.name == q.name
  {
    var tail := " is a required argument that is missing.";
    var mp := Message(MissingRequiredArgument(p));
    var mq := Message(MissingRequiredArgument(q));
    assert mp == p.name + tail && mq == q.name + tail;
    if mp == mq {
      assert |p.name| == |q.name|;
      assert mp[..|p.name|] == p.name && mq[..|q.name|] == q.name;
    }
  }

  /** A context-restriction failure shows the given message when it is
      non-empty and its fixed default text otherwise. */
  lemma ContextOnlyMessages(m: Option<string>)
    ensures m.Some? && m.value != "" ==>
      Message(PrivateMessageOnly(m)) == m.value && Message(PartyMessageOnly(m)) == m.value
    ensures m.None? || m.value == "" ==>
      Message(PrivateMessageOnly(m)) == "This command can only be used in private messages." &&
      Message(PartyMessageOnly(m)) == "This command can only be used in party messages."
  {
    assert Message(PrivateMessageOnly(m)) == OrDefault(m, "This command can only be used in private messages.");
    assert Message(PartyMessageOnly(m)) == OrDefault(m, "This command can only be used in party messages.");
  }

  /** `CommandInvokeError` and `ExtensionFailed` keep the wrapped exception
      as `original`, and their messages end with its class name and text. */
  lemma WrappedCauseMessages(c: Cause, name: string)
    ensures CommandInvokeError(c).original == c && ExtensionFailed(name, c).original == c
    ensures ExtensionFailed(name, c).name == name
    ensures StartsWith(Message(CommandInvokeError(c)), "Command raised an exception: ")
    ensures EndsWith(Message(CommandInvokeError(c)), c.kindName + ": " + c.text)
    ensures StartsWith(Message(ExtensionFailed(name, c)), "Extension " + Repr(name))
    ensures EndsWith(Message(ExtensionFailed(name, c)), c.kindName + ": " + c.text)
  {
    var cause := c.kindName + ": " + c.text;
    InvokeErrorMessage(c);
    Affixes("Command raised an exception: ", cause);
    ExtensionFailedMessage(name, c);
    Affixes("Extension " + Repr(name), " raised an error: " + cause);
    Affixes(("Extension " + Repr(name)) + " raised an error: ", cause);
  }

  lemma InvokeErrorMessage(c: Cause)
    ensures Message(CommandInvokeError(c)) == "Command raised an exception: " + (c.kindName + ": " + c.text)
  {
  }

  lemma ExtensionFailedMessage(name: string, c: Cause)
    ensures Message(ExtensionFailed(name, c)) ==
      ("Extension " + Repr(name)) + " raised an error: " + (c.kindName + ": " + c.text)
  {
  }

  /** `ConversionError` passes no message to its base class, so its text is
      the `repr` of its argument tuple: the converter's, then the original
      exception's. */
  lemma ConversionMessage(c: ConverterDesc, o: Cause)
    ensures ConversionError(c, o).original == o && ConversionError(c, o).converter == c
    ensures StartsWith(Message(ConversionError(c, o)), "(" + c.reprText + ", ")
    ensures EndsWith(Message(ConversionError(c, o)), o.reprText + ")")
  {
    assert Message(ConversionError(c, o)) == ("(" + c.reprText + ", ") + (o.reprText + ")");
    Affixes("(" + c.reprText + ", ", o.reprText + ")");
  }

  /** The suffix of the concurrency clause depends only on the bucket type:
      "globally" for the default bucket, "per <bucket name>" otherwise. */
  lemma {:induction false} ConcurrencyClauseSuffix(n: int, per: BucketType)
    ensures ConcurrencyClause(n, per) ==
      IntToString(n) + (if n > 1 then " times " else " time ") +
      (if per == Default then "globally" else "per " + per.Name())
  {
    if per == User {
      assert per.Name() != "default" by { assert per.Name()[0] == 'u'; }
    }
  }

  lemma ConcurrencyClauseHead(n: int, per: BucketType)
    ensures StartsWith(ConcurrencyClause(n, per), IntToString(n) + (if n > 1 then " times " else " time "))
  {
    ConcurrencyClauseSuffix(n, per);
    Affixes(IntToString(n) + (if n > 1 then " times " else " time "),
            if per == Default then "globally" else "per " + per.Name());
  }

  lemma ConcurrencyClauseTail(n: int, per: BucketType)
    ensures EndsWith(ConcurrencyClause(n, per), " " + (if per == Default then "globally" else "per " + per.Name()))
  {
    ConcurrencyClauseSuffix(n, per);
    var word := if n > 1 then " times" else " time";
    var suffix := if per == Default then "globally" else "per " + per.Name();
    assert (if n > 1 then " times " else " time ") == word + " ";
    ConcatAssoc(IntToString(n), word, " ");
    ConcatAssoc(IntToString(n) + word, " ", suffix);
    Affixes(IntToString(n) + word, " " + suffix);
  }

  /** `MaxConcurrencyReached` says "globally" exactly for the default bucket,
      "per <bucket name>" otherwise, and pluralises "time" for more than one. */
  lemma ConcurrencyClauseShape(n: int, per: BucketType)
    ensures per == Default ==> EndsWith(ConcurrencyClause(n, per), " globally")
    ensures per != Default ==> EndsWith(ConcurrencyClause(n, per), " per " + per.Name())
    ensures n > 1 ==> StartsWith(ConcurrencyClause(n, per), IntToString(n) + " times ")
    ensures n <= 1 ==> StartsWith(ConcurrencyClause(n, per), IntToString(n) + " time ")
  {
    ConcurrencyClauseHead(n, per);
    ConcurrencyClauseTail(n, per);
    if per == Default {
      assert " " + "globally" == " globally";
    } else {
      ConcatAssoc(" ", "per ", per.Name());
      assert " " + "per " == " per ";
    }
  }

  /** Up to two converter names are joined by " or "; more are listed with
      commas and a final ", or ". */
  lemma {:induction false} UnionNamesShape(names: seq<string>)
    ensures |names| == 1 ==> UnionNames(names) == names[0]
    ensures |names| == 2 ==> UnionNames(names) == names[0] + " or " + names[1]
    ensures |names| > 2 ==>
      UnionNames(names) == Join(names[..|names| - 1], ", ") + ", or " + names[|names| - 1]
    ensures |names| == 3 ==>
      UnionNames(names) == names[0] + ", " + names[1] + ", or " + names[2]
  {
    if |names| == 2 {
      assert names[1..] == [names[1]];
      assert Join(names, " or ") == names[0] + " or " + Join([names[1]], " or ");
    }
    if |names| == 3 {
      var front := names[..2];
      assert front[1..] == [names[1]];
      assert Join(front, ", ") == names[0] + ", " + names[1];
    }
  }

  /** `BadUnionArgument` keeps its payload and names the parameter and
      every converter it tried, in order. */
  lemma BadUnionMessage(p: Parameter, cs: seq<ConverterDesc>, errs: seq<Error>)
    ensures BadUnionArgument(p, cs, errs).param == p
    ensures BadUnionArgument(p, cs, errs).converters == cs
    ensures BadUnionArgument(p, cs, errs).errors == errs
    ensures Message(BadUnionArgument(p, cs, errs)) ==
      "Could not convert \"" + p.name + "\" into " + UnionNames(ConverterNames(cs)) + "."
    ensures |cs| == 2 ==>
      (UnionNames(ConverterNames(cs)) == cs[0].DisplayName() + " or " + cs[1].DisplayName())
  {
    UnionNamesShape(ConverterNames(cs));
  }

  /** An extension error always records the extension's name; without a
      message it says that extension had an error. */
  lemma ExtensionErrorDefault(name: string)
    ensures ExtensionError(None, name).name == name
    ensures Message(ExtensionError(None, name)) == "Extension " + Repr(name) + " had an error."
    ensures Message(ExtensionError(Some(""), name)) == Message(ExtensionError(None, name))
  {
  }

  /** The argument errors' templated messages are non-empty. */
  lemma ArgumentTemplatesNonEmpty(e: Error)
    requires e.MissingRequiredArgument? || e.BadUnionArgument? || e.UnexpectedQuoteError?
    ensures Message(e) != ""
  {
    match e
    case MissingRequiredArgument(_) =>
    case BadUnionArgument(_, _, _) =>
    case UnexpectedQuoteError(_) =>
    case _ =>
  }

  /** The quote errors' templated messages are non-empty. */
  lemma QuoteTemplatesNonEmpty(e: Error)
    requires e.InvalidEndOfQuotedStringError? || e.ExpectedClosingQuoteError? || e.CheckAnyFailure?
    ensures Message(e) != ""
  {
    match e
    case InvalidEndOfQuotedStringError(_) =>
    case ExpectedClosingQuoteError(_) =>
    case CheckAnyFailure(_, _) =>
    case _ =>
  }

  /** The context-restriction and invocation messages are non-empty. */
  lemma CheckTemplatesNonEmpty(e: Error)
    requires e.PrivateMessageOnly? || e.PartyMessageOnly? || e.CommandInvokeError?
    ensures Message(e) != ""
  {
    match e
    case PrivateMessageOnly(_) =>
    case PartyMessageOnly(_) =>
    case CommandInvokeError(_) =>
    case _ =>
  }

  /** The cooldown and concurrency messages, and the generic extension message, are non-empty. */
  lemma LimitTemplatesNonEmpty(e: Error)
    requires e.CommandOnCooldown? || e.MaxConcurrencyReached? || e.ExtensionError?
    ensures Message(e) != ""
  {
    match e
    case CommandOnCooldown(_, _, _, _) =>
    case MaxConcurrencyReached(_, _) =>
    case ExtensionError(_, _) =>
    case _ =>
  }

  /** The extension loading messages are non-empty. */
  lemma LoadTemplatesNonEmpty(e: Error)
    requires e.ExtensionAlreadyLoaded? || e.ExtensionNotLoaded? || e.ExtensionMissingEntryPoint?
    ensures Message(e) != ""
  {
    match e
    case ExtensionAlreadyLoaded(_) =>
    case ExtensionNotLoaded(_) =>
    case ExtensionMissingEntryPoint(_) =>
    case _ =>
  }

  /** The extension failure messages, and the conversion failure message,
      are non-empty. */
  lemma FailureTemplatesNonEmpty(e: Error)
    requires e.ExtensionFailed? || e.ExtensionNotFound? || e.ConversionError?
    ensures Message(e) != ""
  {
    match e
    case ExtensionFailed(_, _) =>
    case ExtensionNotFound(_) =>
    case ConversionError(_, _) =>
    case _ =>
  }

  /** Every kind whose constructor formats a fixed template, or whose
      arguments are printed as a tuple, has a non-empty message; only the
      kinds built from an optional message can have an empty one. */
  lemma TemplatedMessagesNonEmpty(e: Error)
    requires !(e.CommandError? || e.UserInputError? || e.CommandNotFound? ||
               e.TooManyArguments? || e.BadArgument? || e.CheckFailure? ||
               e.NotOwner? || e.DisabledCommand? || e.ArgumentParsingError?)
    ensures Message(e) != ""
  {
    if e.MissingRequiredArgument? || e.BadUnionArgument? || e.UnexpectedQuoteError? {
      ArgumentTemplatesNonEmpty(e);
    } else if e.InvalidEndOfQuotedStringError? || e.ExpectedClosingQuoteError? || e.CheckAnyFailure? {
      QuoteTemplatesNonEmpty(e);
    } else if e.PrivateMessageOnly? || e.PartyMessageOnly? || e.CommandInvokeError? {
      CheckTemplatesNonEmpty(e);
    } else if e.CommandOnCooldown? || e.MaxConcurrencyReached? || e.ExtensionError? {
      LimitTemplatesNonEmpty(e);
    } else if e.ExtensionAlreadyLoaded? || e.ExtensionNotLoaded? || e.ExtensionMissingEntryPoint? {
      LoadTemplatesNonEmpty(e);
    } else {
      FailureTemplatesNonEmpty(e);
    }
  }

  /** A message is empty exactly for a kind that only passes on its optional
      message, when that message was not given or was empty. */
  lemma EmptyMessages(e: Error)
    ensures Message(e) == "" <==> BareMessageKind(e) && e.msg.GetOr("") == ""
  {
    match e
    case CommandError(_) =>
    case UserInputError(_) =>
    case CommandNotFound(_) =>
    case TooManyArguments(_) =>
    case BadArgument(_) =>
    case CheckFailure(_) =>
    case NotOwner(_) =>
    case DisabledCommand(_) =>
    case ArgumentParsingError(_) =>
    case _ => TemplatedMessagesNonEmpty(e);
  }
}
