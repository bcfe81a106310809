/** Argument converters: recognising account ids, looking users, party
    members and friends up by id or display name, and the `Greedy[...]`
    marker. */
module Converters {
  import opened Wrappers
  import opened PyText
  import opened CommandErrors
  import opened Exceptions

  // ------------------------------------------------------------ ids

  predicate IsHexDigit(c: char) {
    ('0' <= c <= '9') || ('a' <= c <= 'f') || ('A' <= c <= 'F')
  }

  /** The length of the run of hex digits `s` starts with. */
  function HexRun(s: string): (n: nat)
    ensures n <= |s|
    ensures forall i :: 0 <= i < n ==> IsHexDigit(s[i])
    ensures n < |s| ==> !IsHexDigit(s[n])
    decreases |s|
  {
    if s == [] || !IsHexDigit(s[0]) then 0 else 1 + HexRun(s[1..])
  }

  /** `_get_id_match`: the pattern `([0-9a-fA-F]{32})$` matched from the
      start of the argument, giving group 1. `$` matches at the end of the
      string and also just before a newline that ends it. */
  function IdMatch(arg: string): (r: Option<string>)
    ensures r.Some? <==>
      ((|arg| == 32 || (|arg| == 33 && arg[32] == '\n')) &&
       forall i :: 0 <= i < 32 ==> IsHexDigit(arg[i]))
    ensures r.Some? ==> r.value == arg[..32]
  {
    if HexRun(arg) >= 32 && (|arg| == 32 || (|arg| == 33 && arg[32] == '\n')) then Some(arg[..32])
    else None
  }

  /** An id of 32 hex digits is matched as itself, with or without one
      trailing newline, and with any other character after it is not. */
  lemma IdMatchOfId(id: string, c: char)
    requires |id| == 32 && forall i :: 0 <= i < 32 ==> IsHexDigit(id[i])
    ensures IdMatch(id) == Some(id)
    ensures IdMatch(id + "\n") == Some(id)
    ensures c != '\n' ==> IdMatch(id + [c]) == None
    ensures IdMatch(id + "\n\n") == None
  {
    HexRunAtLeast(id, 32);
    HexRunAtLeast(id + "\n", 32);
    assert id[..32] == id;
    assert (id + "\n")[..32] == id;
    assert (id + [c])[32] == c;
  }

  /** A string that starts with `k` hex digits has a run of at least `k`. */
  lemma {:induction false} HexRunAtLeast(s: string, k: nat)
    requires k <= |s| && forall i :: 0 <= i < k ==> IsHexDigit(s[i])
    ensures HexRun(s) >= k
    decreases k
  {
    if k > 0 {
      HexRunAtLeast(s[1..], k - 1);
    }
  }

  /** The key the converters look an id-shaped argument up by: group 1,
      lowercased. */
  function LookupId(arg: string): (r: Option<string>)
    ensures r.Some? <==> IdMatch(arg).Some?
    ensures r.Some? ==> r.value == Lower(arg[..32]) && |r.value| == 32
  {
    match IdMatch(arg)
    case Some(g) => Some(Lower(g))
    case None => None
  }

  // ------------------------------------------------------------ users

  /** `UserConverter.convert`: `fetch` stands for `bot.fetch_user(..,
      cache=True)`, which is given the lowercased id when the argument is
      one and the argument itself otherwise. */
  function ConvertUser<U>(arg: string, fetch: string -> Option<U>): (r: Result<U, Error>)
    ensures LookupId(arg).Some? ==> (r.Ok? <==> fetch(LookupId(arg).value).Some?)
    ensures LookupId(arg).None? ==> (r.Ok? <==> fetch(arg).Some?)
    ensures r.Ok? ==> r.value == (if LookupId(arg).Some? then fetch(LookupId(arg).value) else fetch(arg)).value
    ensures r.Err? ==> r.error == BadArgument(Some("User \"" + arg + "\" not found"))
  {
    var key := if LookupId(arg).Some? then LookupId(arg).value else arg;
    match fetch(key)
    case Some(u) => Ok(u)
    case None => Err(BadArgument(Some("User \"" + arg + "\" not found")))
  }

  // ---------------------------------------------- members and friends

  /** A cached party member or friend: the account id it is keyed by and
      its display name. */
  datatype Account = Account(id: string, displayName: string)

  /** The display-name loop of the member and friend converters: the first
      cached entry whose display name equals the argument ignoring case. */
  method FindByDisplayName(entries: seq<Account>, arg: string) returns (r: Option<Account>)
    ensures r.None? <==> forall i :: 0 <= i < |entries| ==> Casefold(entries[i].displayName) != Casefold(arg)
    ensures r.Some? ==>
      exists i :: 0 <= i < |entries| && entries[i] == r.value &&
        Casefold(entries[i].displayName) == Casefold(arg) &&
        forall j :: 0 <= j < i ==> Casefold(entries[j].displayName) != Casefold(arg)
  {
    var i := 0;
    while i < |entries|
      invariant 0 <= i <= |entries|
      invariant forall j :: 0 <= j < i ==> Casefold(entries[j].displayName) != Casefold(arg)
    {
      if Casefold(entries[i].displayName) == Casefold(arg) {
        return Some(entries[i]);
      }
      i := i + 1;
    }
    return None;
  }

  /** The lookup by id in the cache (`get_member` / `get_friend`): a
      dictionary keyed by account id, so at most one entry has the id. */
  function FindById(entries: seq<Account>, id: string): (r: Option<Account>)
    ensures r.None? <==> forall i :: 0 <= i < |entries| ==> entries[i].id != id
    ensures r.Some? ==> r.value in entries && r.value.id == id
    decreases |entries|
  {
    if entries == [] then None
    else if entries[0].id == id then Some(entries[0])
    else FindById(entries[1..], id)
  }

  /** Lookup shared by the two converters: by lowercased id when the
      argument is one, by display name otherwise; nothing found is a
      `BadArgument` naming the argument. */
  method Convert(entries: seq<Account>, arg: string, what: string) returns (r: Result<Account, Error>)
    ensures LookupId(arg).Some? ==>
      (r.Ok? <==> FindById(entries, LookupId(arg).value).Some?) &&
      (r.Ok? ==> r.value == FindById(entries, LookupId(arg).value).value)
    ensures LookupId(arg).None? ==>
      (r.Ok? <==> exists i :: 0 <= i < |entries| && Casefold(entries[i].displayName) == Casefold(arg))
    ensures LookupId(arg).None? && r.Ok? ==>
      exists i :: 0 <= i < |entries| && entries[i] == r.value &&
        Casefold(entries[i].displayName) == Casefold(arg) &&
        forall j :: 0 <= j < i ==> Casefold(entries[j].displayName) != Casefold(arg)
    ensures r.Err? ==> r.error == BadArgument(Some(what + " \"" + arg + "\" not found"))
  {
    var result: Option<Account>;
    var key := LookupId(arg);
    if key.None? {
      result := FindByDisplayName(entries, arg);
    } else {
      result := FindById(entries, key.value);
    }
    if result.None? {
      return Err(BadArgument(Some(what + " \"" + arg + "\" not found")));
    }
    return Ok(result.value);
  }

  /** `PartyMemberConverter.convert` over the members of the party in
      question (the context's party, else the bot's). */
  method ConvertPartyMember(members: seq<Account>, arg: string) returns (r: Result<Account, Error>)
    ensures LookupId(arg).Some? ==>
      (r.Ok? <==> FindById(members, LookupId(arg).value).Some?) &&
      (r.Ok? ==> r.value == FindById(members, LookupId(arg).value).value)
    ensures LookupId(arg).None? ==>
      (r.Ok? <==> exists i :: 0 <= i < |members| && Casefold(members[i].displayName) == Casefold(arg))
    ensures r.Err? ==> r.error == BadArgument(Some("Party member \"" + arg + "\" not found"))
  {
    assert "Party member" + " \"" == "Party member \"";
    r := Convert(members, arg, "Party member");
  }

  /** `FriendConverter.convert` over the bot's friend cache. */
  method ConvertFriend(friends: seq<Account>, arg: string) returns (r: Result<Account, Error>)
    ensures LookupId(arg).Some? ==>
      (r.Ok? <==> FindById(friends, LookupId(arg).value).Some?) &&
      (r.Ok? ==> r.value == FindById(friends, LookupId(arg).value).value)
    ensures LookupId(arg).None? ==>
      (r.Ok? <==> exists i :: 0 <= i < |friends| && Casefold(friends[i].displayName) == Casefold(arg))
    ensures r.Err? ==> r.error == BadArgument(Some("Friend \"" + arg + "\" not found"))
  {
    assert "Friend" + " \"" == "Friend \"";
    r := Convert(friends, arg, "Friend");
  }

  /** An id-shaped argument is never looked up by display name: even a
      member whose display name is the argument is not found unless its id
      is the lowercased argument. */
  lemma IdShapedIgnoresDisplayName(arg: string, memberId: string)
    requires |arg| == 32 && forall i :: 0 <= i < 32 ==> IsHexDigit(arg[i])
    requires Lower(arg) != memberId
    ensures FindById([Account(id := memberId, displayName := arg)], LookupId(arg).value).None?
  {
    IdMatchOfId(arg, ' ');
    assert arg[..32] == arg;
  }

  // ------------------------------------------------------------ Greedy

  /** What `Greedy[...]` can be given: the classes `str`, `NoneType` and
      `_Greedy`, a `Greedy` instance, or anything else described by
      whether it is callable, a `Converter` instance, or a typing
      construct with `__origin__`. */
  datatype ConverterArg =
    | StrClass
    | NoneTypeClass
    | GreedyClass
    | GreedyInstance
    | Other(name: string, isCallable: bool, isConverter: bool, hasOrigin: bool)
  {
    predicate Acceptable() {
      match this
      case StrClass | NoneTypeClass | GreedyClass => true
      case GreedyInstance => false
      case Other(_, c, k, o) => c || k || o
    }

    predicate Forbidden() {
      StrClass? || NoneTypeClass? || GreedyClass?
    }

    function ClassName(): string
      requires Forbidden()
    {
      match this
      case StrClass => "str"
      case NoneTypeClass => "NoneType"
      case GreedyClass => "_Greedy"
    }
  }

  /** `_Greedy.__getitem__`: a single subscript is a one-element tuple. */
  function GreedyOf(params: seq<ConverterArg>): (r: Result<ConverterArg, Exc>)
    ensures r.Ok? <==> |params| == 1 && params[0].Acceptable() && !params[0].Forbidden()
    ensures r.Ok? ==> r.value == params[0]
    ensures |params| != 1 ==> r == Err(TypeError("Greedy[...] only takes a single argument"))
    ensures |params| == 1 && !params[0].Acceptable() ==>
      r == Err(TypeError("Greedy[...] expects a type or a Converter instance."))
    ensures |params| == 1 && params[0].Forbidden() ==>
      r == Err(TypeError("Greedy[" + params[0].ClassName() + "] is invalid."))
  {
    if |params| != 1 then Err(TypeError("Greedy[...] only takes a single argument"))
    else
      var converter := params[0];
      if !converter.Acceptable() then Err(TypeError("Greedy[...] expects a type or a Converter instance."))
      else if converter.Forbidden() then Err(TypeError("Greedy[" + converter.ClassName() + "] is invalid."))
      else Ok(converter)
  }

  /** `Greedy[str]`, `Greedy[NoneType]`, `Greedy[_Greedy]` and `Greedy[Greedy]`
      are refused; any callable other than those three is wrapped. */
  lemma GreedyRefusals(name: string)
    ensures GreedyOf([StrClass]) == Err(TypeError("Greedy[str] is invalid."))
    ensures GreedyOf([NoneTypeClass]) == Err(TypeError("Greedy[NoneType] is invalid."))
    ensures GreedyOf([GreedyClass]) == Err(TypeError("Greedy[_Greedy] is invalid."))
    ensures GreedyOf([GreedyInstance]).Err?
    ensures GreedyOf([Other(name, true, false, false)]) == Ok(Other(name, true, false, false))
    ensures GreedyOf([StrClass, StrClass]) == Err(TypeError("Greedy[...] only takes a single argument"))
  {
    GreedyRefusesStr();
    GreedyRefusesNoneType();
    GreedyRefusesGreedy();
  }

  lemma GreedyRefusesStr()
    ensures GreedyOf([StrClass]) == Err(TypeError("Greedy[str] is invalid."))
  {
    GreedyForbidden(StrClass);
    assert "Greedy[" + "str" + "] is invalid." == "Greedy[str] is invalid.";
  }

  lemma GreedyRefusesNoneType()
    ensures GreedyOf([NoneTypeClass]) == Err(TypeError("Greedy[NoneType] is invalid."))
  {
    GreedyForbidden(NoneTypeClass);
    assert "Greedy[" + "NoneType" + "] is invalid." == "Greedy[NoneType] is invalid.";
  }

  lemma GreedyRefusesGreedy()
    ensures GreedyOf([GreedyClass]) == Err(TypeError("Greedy[_Greedy] is invalid."))
  {
    GreedyForbidden(GreedyClass);
    assert "Greedy[" + "_Greedy" + "] is invalid." == "Greedy[_Greedy] is invalid.";
  }

  lemma GreedyForbidden(c: ConverterArg)
    requires c.Forbidden()
    ensures GreedyOf([c]) == Err(TypeError("Greedy[" + c.ClassName() + "] is invalid."))
  {
  }
}
