/** Descriptors the command framework passes around and the error kinds carry:
    parameters, bucket types, converters, wrapped exceptions and checks. */
module CommandTypes {
  import opened Wrappers
  import opened PyValues

  /** `inspect.Parameter.kind`. */
  datatype ParamKind = PositionalOnly | PositionalOrKeyword | VarPositional | KeywordOnly | VarKeyword

  /** A command parameter as the framework sees it after reflection:
      `default` is `None` for `Parameter.empty`; `greedy` says the annotation
      is a `Greedy[...]`; `optionalAnnotation` says it is `Optional[...]`. */
  datatype Parameter = Parameter(
    name: string,
    kind: ParamKind,
    default: Option<PyValue>,
    greedy: bool,
    optionalAnnotation: bool)

  /** `BucketType`, the scope of a cooldown or concurrency counter. */
  datatype BucketType = Default | User {
    /** The enum member's `name`. */
    function Name(): string {
      match this
      case Default => "default"
      case User => "user"
    }

    /** `get_key(msg)`: the author's id for `user`, `None` (one shared key)
        for `default`. */
    function GetKey(authorId: string): (k: Option<string>)
      ensures k.Some? <==> this == User
      ensures k.Some? ==> k.value == authorId
    {
      if this == User then Some(authorId) else None
    }
  }

  /** A converter as an error message names it: a type (named by its
      `__name__`) or a converter instance (named by its class). `reprText`
      is the object's `repr()`, which depends on its module, its address
      or its own `__repr__` and is therefore given, not computed. */
  datatype ConverterDesc =
    | NamedType(typeName: string, reprText: string)
    | Instance(className: string, reprText: string)
  {
    function DisplayName(): string {
      match this
      case NamedType(n, _) => n
      case Instance(c, _) => c
    }
  }

  /** An arbitrary exception wrapped by another: its class name, its `str()`
      and its `repr()`, the last two being whatever its own class makes of
      its arguments. */
  datatype Cause = Cause(kindName: string, text: string, reprText: string)

  /** A cog, identified by its `qualified_name`. */
  datatype CogRef = CogRef(name: string)

  /** A check predicate, identified by the function object it is. */
  type CheckId = nat

  /** What calling a check did: returned something truthy, something falsy,
      or raised. */
  datatype CheckOutcome<+E> = Truthy | Falsy | Raised(error: E)
}
