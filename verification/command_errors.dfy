/** The command framework's error taxonomy: one variant per exception class,
    each carrying exactly the payload its constructor stores, the class tree
    the classes form, and the message each constructor formats. */
module CommandErrors {
  import opened Wrappers
  import opened PyText
  import opened CommandTypes

  /** One value per exception class. Classes that are only `pass` in the
      source keep the optional message `CommandError.__init__` accepts. */
  datatype Error =
    | CommandError(msg: Option<string>)
    | UserInputError(msg: Option<string>)
    | CommandNotFound(msg: Option<string>)
    | MissingRequiredArgument(param: Parameter)
    | TooManyArguments(msg: Option<string>)
    | BadArgument(msg: Option<string>)
    | CheckFailure(msg: Option<string>)
    | CheckAnyFailure(checks: seq<CheckId>, errors: seq<Error>)
    | PrivateMessageOnly(msg: Option<string>)
    | PartyMessageOnly(msg: Option<string>)
    | NotOwner(msg: Option<string>)
    | DisabledCommand(msg: Option<string>)
    | CommandInvokeError(original: Cause)
    | CommandOnCooldown(rate: int, per: real, bucket: BucketType, retryAfter: real)
    | MaxConcurrencyReached(number: int, perBucket: BucketType)
    | ConversionError(converter: ConverterDesc, original: Cause)
    | BadUnionArgument(param: Parameter, converters: seq<ConverterDesc>, errors: seq<Error>)
    | ArgumentParsingError(msg: Option<string>)
    | UnexpectedQuoteError(quote: string)
    | InvalidEndOfQuotedStringError(found: string)
    | ExpectedClosingQuoteError(closeQuote: string)
    | ExtensionError(msg: Option<string>, name: string)
    | ExtensionAlreadyLoaded(name: string)
    | ExtensionNotLoaded(name: string)
    | ExtensionMissingEntryPoint(name: string)
    | ExtensionFailed(name: string, original: Cause)
    | ExtensionNotFound(name: string)

  // ------------------------------------------------------------ class tree

  /** The exception classes, including the library-wide base class. */
  datatype ErrorClass =
    | FortniteExceptionClass
    | CommandErrorClass | UserInputErrorClass | CommandNotFoundClass
    | MissingRequiredArgumentClass | TooManyArgumentsClass | BadArgumentClass
    | CheckFailureClass | CheckAnyFailureClass | PrivateMessageOnlyClass
    | PartyMessageOnlyClass | NotOwnerClass | DisabledCommandClass
    | CommandInvokeErrorClass | CommandOnCooldownClass | MaxConcurrencyReachedClass
    | ConversionErrorClass | BadUnionArgumentClass | ArgumentParsingErrorClass
    | UnexpectedQuoteErrorClass | InvalidEndOfQuotedStringErrorClass
    | ExpectedClosingQuoteErrorClass
    | ExtensionErrorClass | ExtensionAlreadyLoadedClass | ExtensionNotLoadedClass
    | ExtensionMissingEntryPointClass | ExtensionFailedClass | ExtensionNotFoundClass

  /** The class an error value is an instance of. */
  function ClassOf(e: Error): ErrorClass {
    match e
    case CommandError(_) => CommandErrorClass
    case UserInputError(_) => UserInputErrorClass
    case CommandNotFound(_) => CommandNotFoundClass
    case MissingRequiredArgument(_) => MissingRequiredArgumentClass
    case TooManyArguments(_) => TooManyArgumentsClass
    case BadArgument(_) => BadArgumentClass
    case CheckFailure(_) => CheckFailureClass
    case CheckAnyFailure(_, _) => CheckAnyFailureClass
    case PrivateMessageOnly(_) => PrivateMessageOnlyClass
    case PartyMessageOnly(_) => PartyMessageOnlyClass
    case NotOwner(_) => NotOwnerClass
    case DisabledCommand(_) => DisabledCommandClass
    case CommandInvokeError(_) => CommandInvokeErrorClass
    case CommandOnCooldown(_, _, _, _) => CommandOnCooldownClass
    case MaxConcurrencyReached(_, _) => MaxConcurrencyReachedClass
    case ConversionError(_, _) => ConversionErrorClass
    case BadUnionArgument(_, _, _) => BadUnionArgumentClass
    case ArgumentParsingError(_) => ArgumentParsingErrorClass
    case UnexpectedQuoteError(_) => UnexpectedQuoteErrorClass
    case InvalidEndOfQuotedStringError(_) => InvalidEndOfQuotedStringErrorClass
    case ExpectedClosingQuoteError(_) => ExpectedClosingQuoteErrorClass
    case ExtensionError(_, _) => ExtensionErrorClass
    case ExtensionAlreadyLoaded(_) => ExtensionAlreadyLoadedClass
    case ExtensionNotLoaded(_) => ExtensionNotLoadedClass
    case ExtensionMissingEntryPoint(_) => ExtensionMissingEntryPointClass
    case ExtensionFailed(_, _) => ExtensionFailedClass
    case ExtensionNotFound(_) => ExtensionNotFoundClass
  }

  /** The direct base class each class declares, nearer the root. */
  function Parent(c: ErrorClass): (p: ErrorClass)
    requires c != FortniteExceptionClass
    ensures Depth(p) < Depth(c)
  {
    match c
    case CommandErrorClass => FortniteExceptionClass
    case UserInputErrorClass => CommandErrorClass
    case CommandNotFoundClass => CommandErrorClass
    case MissingRequiredArgumentClass => UserInputErrorClass
    case TooManyArgumentsClass => UserInputErrorClass
    case BadArgumentClass => UserInputErrorClass
    case CheckFailureClass => UserInputErrorClass
    case CheckAnyFailureClass => CheckFailureClass
    case PrivateMessageOnlyClass => CheckFailureClass
    case PartyMessageOnlyClass => CheckFailureClass
    case NotOwnerClass => CheckFailureClass
    case DisabledCommandClass => CommandErrorClass
    case CommandInvokeErrorClass => CommandErrorClass
    case CommandOnCooldownClass => CommandErrorClass
    case MaxConcurrencyReachedClass => CommandErrorClass
    case ConversionErrorClass => CommandErrorClass
    case BadUnionArgumentClass => UserInputErrorClass
    case ArgumentParsingErrorClass => UserInputErrorClass
    case UnexpectedQuoteErrorClass => ArgumentParsingErrorClass
    case InvalidEndOfQuotedStringErrorClass => ArgumentParsingErrorClass
    case ExpectedClosingQuoteErrorClass => ArgumentParsingErrorClass
    case ExtensionErrorClass => FortniteExceptionClass
    case ExtensionAlreadyLoadedClass => ExtensionErrorClass
    case ExtensionNotLoadedClass => ExtensionErrorClass
    case ExtensionMissingEntryPointClass => ExtensionErrorClass
    case ExtensionFailedClass => ExtensionErrorClass
    case ExtensionNotFoundClass => ExtensionErrorClass
  }

  /** Distance from the root of the tree; strictly decreases towards it. */
  function Depth(c: ErrorClass): nat {
    match c
    case FortniteExceptionClass => 0
    case CommandErrorClass | ExtensionErrorClass => 1
    case UserInputErrorClass | CommandNotFoundClass | DisabledCommandClass
      | CommandInvokeErrorClass | CommandOnCooldownClass | MaxConcurrencyReachedClass
      | ConversionErrorClass | ExtensionAlreadyLoadedClass | ExtensionNotLoadedClass
      | ExtensionMissingEntryPointClass | ExtensionFailedClass | ExtensionNotFoundClass => 2
    case MissingRequiredArgumentClass | TooManyArgumentsClass | BadArgumentClass
      | CheckFailureClass | BadUnionArgumentClass | ArgumentParsingErrorClass => 3
    case CheckAnyFailureClass | PrivateMessageOnlyClass | PartyMessageOnlyClass
      | NotOwnerClass | UnexpectedQuoteErrorClass | InvalidEndOfQuotedStringErrorClass
      | ExpectedClosingQuoteErrorClass => 4
  }

  /** `issubclass(c, a)`: `a` is `c` or one of its ancestors. */
  predicate IsSubclass(c: ErrorClass, a: ErrorClass)
    decreases Depth(c)
  {
    c == a || (c != FortniteExceptionClass && IsSubclass(Parent(c), a))
  }

  /** `isinstance(e, cls)`. */
  predicate IsInstance(e: Error, cls: ErrorClass) {
    IsSubclass(ClassOf(e), cls)
  }

  predicate IsCommandError(e: Error) { IsInstance(e, CommandErrorClass) }
  predicate IsUserInputError(e: Error) { IsInstance(e, UserInputErrorClass) }
  predicate IsCheckFailure(e: Error) { IsInstance(e, CheckFailureClass) }
  predicate IsArgumentParsingError(e: Error) { IsInstance(e, ArgumentParsingErrorClass) }
  predicate IsExtensionError(e: Error) { IsInstance(e, ExtensionErrorClass) }

  /** Every class descends from the library's base exception. */
  lemma {:induction false} RootIsAncestor(c: ErrorClass)
    ensures IsSubclass(c, FortniteExceptionClass)
    decreases Depth(c)
  {
    if c != FortniteExceptionClass {
      RootIsAncestor(Parent(c));
    }
  }

  /** `issubclass` is transitive. */
  lemma {:induction false} SubclassTransitive(a: ErrorClass, b: ErrorClass, c: ErrorClass)
    requires IsSubclass(a, b) && IsSubclass(b, c)
    ensures IsSubclass(a, c)
    decreases Depth(a)
  {
    if a != b {
      SubclassTransitive(Parent(a), b, c);
    }
  }

  /** Only a class and its descendants lie at or below it: an ancestor is
      never deeper than the class. */
  lemma {:induction false} AncestorNotDeeper(c: ErrorClass, a: ErrorClass)
    requires IsSubclass(c, a)
    ensures Depth(a) <= Depth(c)
    ensures Depth(a) == Depth(c) ==> a == c
    decreases Depth(c)
  {
    if c != a {
      AncestorNotDeeper(Parent(c), a);
    }
  }

  /** The kinds, grouped as the documentation lists them. */
  predicate CoreKind(e: Error) {
    e.CommandError? || e.UserInputError? || e.CommandNotFound? || e.DisabledCommand? || e.CommandInvokeError? || e.CommandOnCooldown? || e.MaxConcurrencyReached? || e.ConversionError?
  }

  predicate CheckKind(e: Error) {
    e.CheckFailure? || e.CheckAnyFailure? || e.PrivateMessageOnly? || e.PartyMessageOnly? || e.NotOwner?
  }

  predicate ArgumentKind(e: Error) {
    e.MissingRequiredArgument? || e.TooManyArguments? || e.BadArgument? || e.BadUnionArgument? || e.ArgumentParsingError? || e.UnexpectedQuoteError? || e.InvalidEndOfQuotedStringError? || e.ExpectedClosingQuoteError?
  }

  predicate ExtensionKind(e: Error) {
    e.ExtensionError? || e.ExtensionAlreadyLoaded? || e.ExtensionNotLoaded? || e.ExtensionMissingEntryPoint? || e.ExtensionFailed? || e.ExtensionNotFound?
  }

  lemma CoreKindsFamily(e: Error)
    requires CoreKind(e)
    ensures IsExtensionError(e) <==> !IsCommandError(e)
  {
  }

  lemma CoreKindsUserInput(e: Error)
    requires CoreKind(e)
    ensures IsUserInputError(e) <==>
      (IsCheckFailure(e) || IsArgumentParsingError(e) || e.UserInputError? ||
       e.MissingRequiredArgument? || e.TooManyArguments? || e.BadArgument? ||
       e.BadUnionArgument?)
  {
  }

  lemma CheckKindsFamily(e: Error)
    requires CheckKind(e)
    ensures IsExtensionError(e) <==> !IsCommandError(e)
  {
  }

  lemma CheckKindsUserInput(e: Error)
    requires CheckKind(e)
    ensures IsUserInputError(e) <==>
      (IsCheckFailure(e) || IsArgumentParsingError(e) || e.UserInputError? ||
       e.MissingRequiredArgument? || e.TooManyArguments? || e.BadArgument? ||
       e.BadUnionArgument?)
  {
  }

  lemma ArgumentKindsFamily(e: Error)
    requires ArgumentKind(e)
    ensures IsExtensionError(e) <==> !IsCommandError(e)
  {
  }

  lemma ArgumentKindsUserInput(e: Error)
    requires ArgumentKind(e)
    ensures IsUserInputError(e) <==>
      (IsCheckFailure(e) || IsArgumentParsingError(e) || e.UserInputError? ||
       e.MissingRequiredArgument? || e.TooManyArguments? || e.BadArgument? ||
       e.BadUnionArgument?)
  {
  }

  lemma ExtensionKindsFamily(e: Error)
    requires ExtensionKind(e)
    ensures IsExtensionError(e) <==> !IsCommandError(e)
  {
  }

  lemma ExtensionKindsUserInput(e: Error)
    requires ExtensionKind(e)
    ensures IsUserInputError(e) <==>
      (IsCheckFailure(e) || IsArgumentParsingError(e) || e.UserInputError? ||
       e.MissingRequiredArgument? || e.TooManyArguments? || e.BadArgument? ||
       e.BadUnionArgument?)
  {
  }

  /** The two families are disjoint: an extension error is never a command
      error, so the command error hook never receives one, and every error
      is in exactly one of the two families. */
  lemma ExtensionErrorsAreNotCommandErrors(e: Error)
    ensures IsExtensionError(e) <==> !IsCommandError(e)
  {
    if CoreKind(e) {
      CoreKindsFamily(e);
    } else if CheckKind(e) {
      CheckKindsFamily(e);
    } else if ArgumentKind(e) {
      ArgumentKindsFamily(e);
    } else {
      ExtensionKindsFamily(e);
    }
  }

  /** Every check failure is a user-input error and hence a command error. */
  lemma {:induction false} CheckFailuresAreUserInputErrors(e: Error)
    requires IsCheckFailure(e)
    ensures IsUserInputError(e) && IsCommandError(e)
  {
    assert IsSubclass(CheckFailureClass, UserInputErrorClass);
    assert IsSubclass(UserInputErrorClass, CommandErrorClass);
    SubclassTransitive(ClassOf(e), CheckFailureClass, UserInputErrorClass);
    SubclassTransitive(ClassOf(e), UserInputErrorClass, CommandErrorClass);
  }

  /** The check failures are exactly these five kinds. */
  lemma CheckFailureKinds(e: Error)
    ensures IsCheckFailure(e) <==>
      (e.CheckFailure? || e.CheckAnyFailure? || e.PrivateMessageOnly? ||
       e.PartyMessageOnly? || e.NotOwner?)
  {
  }

  /** The user-input errors are exactly these kinds; in particular
      `CommandNotFound`, `DisabledCommand`, `CommandInvokeError`,
      `CommandOnCooldown`, `MaxConcurrencyReached` and `ConversionError` are
      command errors but not user-input errors. */
  lemma UserInputErrorKinds(e: Error)
    ensures IsUserInputError(e) <==>
      (IsCheckFailure(e) || IsArgumentParsingError(e) || e.UserInputError? ||
       e.MissingRequiredArgument? || e.TooManyArguments? || e.BadArgument? ||
       e.BadUnionArgument?)
  {
    if CoreKind(e) {
      CoreKindsUserInput(e);
    } else if CheckKind(e) {
      CheckKindsUserInput(e);
    } else if ArgumentKind(e) {
      ArgumentKindsUserInput(e);
    } else {
      ExtensionKindsUserInput(e);
    }
  }

  // -------------------------------------------------------------- messages

  /** `message or default`: an absent or empty message falls back. */
  function OrDefault(m: Option<string>, default: string): (r: string)
    ensures m.Some? && m.value != "" ==> r == m.value
    ensures m.None? || m.value == "" ==> r == default
  {
    if m.Some? && m.value != "" then m.value else default
  }

  /** The number of hundredths `'{:.2f}'` prints for `x >= 0`: the nearest
      whole number of hundredths, a tie going to the even one. */
  function Cents(x: real): (c: nat)
    requires x >= 0.0
    ensures x * 100.0 - 0.5 <= c as real <= x * 100.0 + 0.5
    ensures c as real - x * 100.0 == 0.5 || x * 100.0 - c as real == 0.5 ==> c % 2 == 0
  {
    var scaled := x * 100.0;
    var down: nat := scaled.Floor;
    var rest := scaled - down as real;
    if rest > 0.5 || (rest == 0.5 && down % 2 == 1) then down + 1 else down
  }

  /** `'{:.2f}'.format(x)` for `x >= 0`: the whole part, a point and exactly
      two digits, which read without the point are `Cents(x)`. */
  function Fixed2Abs(x: real): (r: string)
    requires x >= 0.0
    ensures |r| >= 4 && r[|r| - 3] == '.'
    ensures AllDigits(r[..|r| - 3]) && AllDigits(r[|r| - 2..])
    ensures DigitsValue(r[..|r| - 3] + r[|r| - 2..]) == Cents(x)
  {
    var c := Cents(x);
    var r := NatToString(c / 100) + "." + [DigitChar(c % 100 / 10), DigitChar(c % 10)];
    Fixed2Digits(c);
    r
  }

  /** The text of `c` hundredths reads back as `c` without its point. */
  lemma Fixed2Digits(c: nat)
    ensures var whole := NatToString(c / 100);
      var frac := [DigitChar(c % 100 / 10), DigitChar(c % 10)];
      var r := whole + "." + frac;
      |r| >= 4 && r[|r| - 3] == '.' &&
      AllDigits(r[..|r| - 3]) && AllDigits(r[|r| - 2..]) &&
      DigitsValue(r[..|r| - 3] + r[|r| - 2..]) == c
  {
    var whole := NatToString(c / 100);
    var frac := [DigitChar(c % 100 / 10), DigitChar(c % 10)];
    var r := whole + "." + frac;
    assert r[..|r| - 3] == whole && r[|r| - 2..] == frac;
    FractionValue(whole, frac);
    NatToStringValue(c / 100);
  }

  /** Two more digits multiply the value read so far by a hundred. */
  lemma FractionValue(whole: string, frac: string)
    requires AllDigits(whole) && AllDigits(frac) && |frac| == 2
    ensures DigitsValue(whole + frac) ==
            100 * DigitsValue(whole) + 10 * DigitValue(frac[0]) + DigitValue(frac[1])
  {
    assert (whole + frac)[..|whole| + 1] == whole + [frac[0]];
    assert (whole + [frac[0]])[..|whole|] == whole;
  }

  /** `'{:.2f}'.format(x)`: a negative number is its magnitude after a minus
      sign, so a negative number that rounds to zero prints as `-0.00`. */
  function Fixed2(x: real): (r: string)
    ensures r != [] && (r[0] == '-' <==> x < 0.0)
    ensures r[if x < 0.0 then 1 else 0..] == Fixed2Abs(if x < 0.0 then -x else x)
  {
    if x < 0.0 then "-" + Fixed2Abs(-x) else Fixed2Abs(x)
  }

  /** How `BadUnionArgument` lists the converters it tried: "a or b" for up to
      two names, "a, b, or c" for more. */
  function UnionNames(names: seq<string>): string {
    if |names| > 2 then Join(names[..|names| - 1], ", ") + ", or " + names[|names| - 1]
    else Join(names, " or ")
  }

  function ConverterNames(cs: seq<ConverterDesc>): (r: seq<string>)
    ensures |r| == |cs| && forall k :: 0 <= k < |cs| ==> r[k] == cs[k].DisplayName()
  {
    seq(|cs|, k requires 0 <= k < |cs| => cs[k].DisplayName())
  }

  /** The "n time(s) globally / per <bucket>" clause of `MaxConcurrencyReached`. */
  function ConcurrencyClause(number: int, per: BucketType): string {
    var suffix := if per.Name() != "default" then "per " + per.Name() else "globally";
    IntToString(number) + (if number > 1 then " times " else " time ") + suffix
  }

  /** The kinds whose constructor only passes on the optional message it
      was given. */
  predicate BareMessageKind(e: Error) {
    e.CommandError? || e.UserInputError? || e.CommandNotFound? || e.TooManyArguments? ||
    e.BadArgument? || e.CheckFailure? || e.NotOwner? || e.DisabledCommand? ||
    e.ArgumentParsingError?
  }

  /** `str(e)`: the message each constructor formats from its payload (see
      `EmptyMessages` for when it is empty). */
  function Message(e: Error): string {
    match e
    case CommandError(m) => m.GetOr("")
    case UserInputError(m) => m.GetOr("")
    case CommandNotFound(m) => m.GetOr("")
    case MissingRequiredArgument(p) => p.name + " is a required argument that is missing."
    case TooManyArguments(m) => m.GetOr("")
    case BadArgument(m) => m.GetOr("")
    case CheckFailure(m) => m.GetOr("")
    case CheckAnyFailure(_, _) => "You do not have permission to run this command."
    case PrivateMessageOnly(m) =>
      OrDefault(m, "This command can only be used in private messages.")
    case PartyMessageOnly(m) =>
      OrDefault(m, "This command can only be used in party messages.")
    case NotOwner(m) => m.GetOr("")
    case DisabledCommand(m) => m.GetOr("")
    case CommandInvokeError(c) => "Command raised an exception: " + c.kindName + ": " + c.text
    case CommandOnCooldown(_, _, _, after) =>
      "You are on cooldown. Try again in " + Fixed2(after) + "s"
    case MaxConcurrencyReached(n, per) =>
      "Too many people using this command. It can only be used "
      + ConcurrencyClause(n, per) + " concurrently."
    case ConversionError(c, o) => "(" + c.reprText + ", " + o.reprText + ")"
    case BadUnionArgument(p, cs, _) =>
      "Could not convert \"" + p.name + "\" into " + UnionNames(ConverterNames(cs)) + "."
    case ArgumentParsingError(m) => m.GetOr("")
    case UnexpectedQuoteError(q) => "Unexpected quote mark, " + Repr(q) + ", in non-quoted string"
    case InvalidEndOfQuotedStringError(c) =>
      "Expected space after closing quotation but received " + Repr(c)
    case ExpectedClosingQuoteError(q) => "Expected closing " + q + "."
    case ExtensionError(m, name) => OrDefault(m, "Extension " + Repr(name) + " had an error.")
    case ExtensionAlreadyLoaded(name) => "Extension " + Repr(name) + " is already loaded."
    case ExtensionNotLoaded(name) => "Extension " + Repr(name) + " has not been loaded."
    case ExtensionMissingEntryPoint(name) => "Extension " + Repr(name) + " has no 'setup' function."
    case ExtensionFailed(name, c) =>
      "Extension " + Repr(name) + " raised an error: " + c.kindName + ": " + c.text
    case ExtensionNotFound(name) => "Extension " + Repr(name) + " could not be loaded."
  }
}
