/** Chat messages the client receives: a whisper from a friend or a line of
    party chat. A message is immutable once built, and replying to it sends
    the text back where it came from. */
module Messages {
  import opened Wrappers

  /** The objects a message refers to, identified by the account or party
      id the library keys them by. */
  datatype ClientRef = ClientRef(id: string)
  datatype FriendRef = FriendRef(id: string)
  datatype MemberRef = MemberRef(id: string)
  datatype PartyRef = PartyRef(id: string)

  /** The author of a message: a friend for a whisper, a party member for
      party chat. */
  datatype Author = FriendAuthor(friend: FriendRef) | MemberAuthor(member: MemberRef) {
    function Id(): string {
      match this
      case FriendAuthor(f) => f.id
      case MemberAuthor(m) => m.id
    }
  }

  /** Something with a `send` coroutine: the author of a message or a party. */
  datatype Messageable = ToAuthor(author: Author) | ToParty(party: PartyRef)

  /** One awaited `send(content)` on a destination. */
  datatype Send = Send(target: Messageable, content: string)

  /** `FriendMessage` and `PartyMessage`; `createdAt` is the UTC time read
      once when the message was built. */
  datatype Message =
    | FriendMessage(client: ClientRef, sender: FriendRef, content: string, createdAt: int)
    | PartyMessage(client: ClientRef, party: PartyRef, member: MemberRef, content: string,
                   createdAt: int)
  {
    /** The `author` property. */
    function Author(): (a: Author)
      ensures FriendMessage? <==> a.FriendAuthor?
      ensures FriendMessage? ==> a == FriendAuthor(sender)
      ensures PartyMessage? ==> a == MemberAuthor(member)
    {
      match this
      case FriendMessage(_, f, _, _) => FriendAuthor(f)
      case PartyMessage(_, _, m, _, _) => MemberAuthor(m)
    }

    /** `getattr(message, 'party', None)`. */
    function PartyOf(): (p: Option<PartyRef>)
      ensures p.Some? <==> PartyMessage?
      ensures PartyMessage? ==> p == Some(party)
    {
      if PartyMessage? then Some(party) else None
    }

    /** `reply(content)`: one `send` of exactly `content`, to the author of a
        whisper and to the party of a party message. */
    function Reply(text: string): (s: Send)
      ensures s.content == text
      ensures FriendMessage? ==> s.target == ToAuthor(FriendAuthor(sender))
      ensures PartyMessage? ==> s.target == ToParty(party)
      ensures PartyMessage? ==> s.target != ToAuthor(Author())
    {
      match this
      case FriendMessage(_, f, _, _) => Send(ToAuthor(FriendAuthor(f)), text)
      case PartyMessage(_, p, _, _, _) => Send(ToParty(p), text)
    }
  }

  /** Building a message: the clock is read once, here, by the caller. */
  function NewFriendMessage(client: ClientRef, author: FriendRef, content: string, now: int): (m: Message)
    ensures m.client == client && m.Author() == FriendAuthor(author) && m.content == content
    ensures m.createdAt == now && m.PartyOf() == None
  {
    FriendMessage(client, author, content, now)
  }

  function NewPartyMessage(client: ClientRef, party: PartyRef, author: MemberRef,
                           content: string, now: int): (m: Message)
    ensures m.client == client && m.Author() == MemberAuthor(author) && m.content == content
    ensures m.createdAt == now && m.PartyOf() == Some(party)
  {
    PartyMessage(client, party, author, content, now)
  }

  /** The reply goes to the party exactly when the message came from one,
      and to the author exactly when it did not; the author of a party
      message is never the recipient. */
  lemma ReplyRouting(m: Message, text: string)
    ensures m.Reply(text).target.ToParty? <==> m.PartyOf().Some?
    ensures m.Reply(text).target.ToAuthor? <==> m.PartyOf().None?
    ensures m.PartyOf().Some? ==> m.Reply(text).target == ToParty(m.PartyOf().value)
    ensures m.PartyOf().None? ==> m.Reply(text).target == ToAuthor(m.Author())
  {
  }
}
