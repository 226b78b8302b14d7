/**
 * The `on_message` handler: blacklist check on the sender, tracked-channel
 * check, first case-insensitive keyword hit, and the one relay planned for
 * it. The platform calls are not made here: the destination channel's id
 * is an input, and the copy or send call is returned as a value.
 */
module Monitor {
  import opened Wrappers
  import opened Text
  import opened Links
  import opened Tables

  /** Who posted: a user (`from_user`), a chat posting as itself (`sender_chat`), or neither. */
  datatype Sender = FromUser(id: int, username: Option<string>) | SenderChat(id: int) | NoSender

  /** The fields of an incoming message the handler reads. */
  datatype Event = Event(
    chatId: int,
    chatUsername: Option<string>,
    messageId: int,
    sender: Sender,
    text: Option<string>,
    caption: Option<string>,
    hasMedia: bool)

  /** The `from_chat_id` argument: "@username", a raw chat id, or None. */
  datatype ChatRef = Handle(handle: string) | ChatId(id: int)

  /** The one platform call planned for a relayed message. */
  datatype RelayAction =
    | CopyMessage(toChat: int, fromChat: Option<ChatRef>, messageId: int, caption: string)
    | SendMessage(toChat: int, text: string)

  datatype DropReason = SenderBlacklisted | ChannelNotTracked | NoKeywordMatched

  /**
   * What the handler does with a message: nothing, a matched keyword whose
   * relay is abandoned because the destination could not be resolved, or a
   * matched keyword and the call that relays the message.
   */
  datatype Decision =
    | Drop(reason: DropReason)
    | DestinationUnavailable(keyword: string)
    | Relay(keyword: string, action: RelayAction)

  /**
   * The blacklist check: by user id and, when the user has a username, by
   * that username (which `is_user_blacklisted` compares with the id
   * column); by the chat id for a chat posting as itself.
   */
  predicate SenderIsBlacklisted(blacklist: seq<BlacklistRow>, sender: Sender)
    ensures sender.NoSender? ==> !SenderIsBlacklisted(blacklist, sender)
    ensures !sender.NoSender? && HasUserId(blacklist, sender.id) ==> SenderIsBlacklisted(blacklist, sender)
    ensures SenderIsBlacklisted(blacklist, sender) ==> exists row :: row in blacklist && row.userId.Some?
  {
    match sender
    case FromUser(id, username) =>
      IsUserBlacklisted(blacklist, ById(id)) || (Truthy(username) && IsUserBlacklisted(blacklist, ByName(username.value)))
    case SenderChat(id) => IsUserBlacklisted(blacklist, ById(id))
    case NoSender => false
  }

  /** `message.text or message.caption`, with an absent value read as "". */
  function TextToCheck(ev: Event): (t: string)
    ensures t == "" <==> !Truthy(ev.text) && !Truthy(ev.caption)
    ensures Truthy(ev.text) ==> t == ev.text.value
    ensures !Truthy(ev.text) ==> t == if ev.caption.Some? then ev.caption.value else ""
  {
    if Truthy(ev.text) then ev.text.value else if ev.caption.Some? then ev.caption.value else ""
  }

  /** `text_to_check and keyword.lower() in text_to_check.lower()`. */
  predicate KeywordMatches(keyword: string, text: string)
    ensures KeywordMatches(keyword, text) <==> text != "" && exists i :: OccursAt(Lower(text), Lower(keyword), i)
  {
    ContainsIff(Lower(text), Lower(keyword));
    text != "" && Contains(Lower(text), Lower(keyword))
  }

  /** Matching ignores ASCII case on both sides. */
  lemma MatchIgnoresCase(keyword: string, text: string)
    ensures KeywordMatches(keyword, text) == KeywordMatches(Lower(keyword), Lower(text))
  {
    LowerIsLower(keyword);
    LowerIsLower(text);
  }

  /** "Sale" matches "huge SALE today". */
  lemma CaseInsensitiveExample()
    ensures KeywordMatches("Sale", "huge SALE today")
  {
    var lowered := Lower("huge SALE today");
    assert lowered == "huge sale today";
    assert Lower("Sale") == "sale";
    assert OccursAt(lowered, "sale", 5);
    ContainsIff(lowered, "sale");
  }

  /** The index of the first keyword, in storage order, that matches the text. */
  function FirstMatch(keywords: seq<string>, text: string): (r: Option<nat>)
    ensures r.Some? ==> r.value < |keywords| && KeywordMatches(keywords[r.value], text)
    ensures r.Some? ==> forall j :: 0 <= j < r.value ==> !KeywordMatches(keywords[j], text)
    ensures r.None? ==> forall j :: 0 <= j < |keywords| ==> !KeywordMatches(keywords[j], text)
  {
    if keywords == [] then None
    else if KeywordMatches(keywords[0], text) then Some(0)
    else
      match FirstMatch(keywords[1..], text)
      case Some(i) => Some(i + 1)
      case None => None
  }

  const LinkLabel: string := "\n\n[Ссылка на сообщение]("

  /** The text appended to a relayed message: a blank line, then a markdown link whose target is the link. */
  function LinkSuffix(link: Option<string>): (r: string)
    ensures |r| == |LinkLabel| + |PyStr(link)| + 1
    ensures r[..|LinkLabel|] == LinkLabel && r[|r| - 1] == ')'
    ensures r[|LinkLabel|..|r| - 1] == PyStr(link)
  {
    LinkLabel + PyStr(link) + ")"
  }

  /**
   * The relay for a matched message: copy it (keeping media) with the
   * caption plus link, or send its text plus link, to the destination. The
   * source reference is "@username" for a public channel, the chat id for a
   * private one, None for an unknown type.
   */
  function PlanRelay(channels: seq<ChannelRow>, ev: Event, destination: int): (a: RelayAction)
    ensures a.CopyMessage? <==> ev.hasMedia
    ensures a.toChat == destination
    ensures var link := GenerateMessageLink(ev.chatId, ev.messageId, ChannelTypeOf(channels, ev.chatId), ev.chatUsername);
            if ev.hasMedia then a.caption == PyStr(ev.caption) + LinkSuffix(link) && a.messageId == ev.messageId
            else a.text == PyStr(ev.text) + LinkSuffix(link)
    ensures a.CopyMessage? ==>
              match ChannelTypeOf(channels, ev.chatId)
              case Some(Public) => a.fromChat == Some(Handle("@" + PyStr(ev.chatUsername)))
              case Some(Private) => a.fromChat == Some(ChatId(ev.chatId))
              case None => a.fromChat.None?
  {
    var kind := ChannelTypeOf(channels, ev.chatId);
    var fromChat := match kind
                    case Some(Public) => Some(Handle("@" + PyStr(ev.chatUsername)))
                    case Some(Private) => Some(ChatId(ev.chatId))
                    case None => None;
    var link := GenerateMessageLink(ev.chatId, ev.messageId, kind, ev.chatUsername);
    if ev.hasMedia then CopyMessage(destination, fromChat, ev.messageId, PyStr(ev.caption) + LinkSuffix(link))
    else SendMessage(destination, PyStr(ev.text) + LinkSuffix(link))
  }

  /**
   * The admission and relay decision, as a specification: blacklisted
   * sender, then untracked chat, then the first matching keyword, then the
   * destination lookup.
   */
  function Admit(db: Snapshot, ev: Event, destination: Option<int>): (d: Decision)
    ensures d == Drop(SenderBlacklisted) <==> SenderIsBlacklisted(db.blacklist, ev.sender)
    ensures d == Drop(ChannelNotTracked) <==> !SenderIsBlacklisted(db.blacklist, ev.sender) && !IsTracked(db.channels, ev.chatId)
    ensures !d.Drop? ==> d.keyword in db.keywords && KeywordMatches(d.keyword, TextToCheck(ev))
    ensures d.DestinationUnavailable? ==> destination.None?
    ensures d.Relay? ==> destination.Some? && d.action == PlanRelay(db.channels, ev, destination.value)
  {
    if SenderIsBlacklisted(db.blacklist, ev.sender) then Drop(SenderBlacklisted)
    else if !IsTracked(db.channels, ev.chatId) then Drop(ChannelNotTracked)
    else
      match FirstMatch(db.keywords, TextToCheck(ev))
      case None => Drop(NoKeywordMatched)
      case Some(i) =>
        match destination
        case None => DestinationUnavailable(db.keywords[i])
        case Some(dest) => Relay(db.keywords[i], PlanRelay(db.channels, ev, dest))
  }

  /**
   * `on_message`: the checks in order, then the keyword loop, which acts on
   * the first hit and breaks.
   */
  method OnMessage(db: Snapshot, ev: Event, destination: Option<int>) returns (d: Decision)
    ensures d == Admit(db, ev, destination)
  {
    if SenderIsBlacklisted(db.blacklist, ev.sender) {
      return Drop(SenderBlacklisted);
    }
    if !IsTracked(db.channels, ev.chatId) {
      return Drop(ChannelNotTracked);
    }
    var keywords := db.keywords;
    d := Drop(NoKeywordMatched);
    for i := 0 to |keywords|
      invariant forall j :: 0 <= j < i ==> !KeywordMatches(keywords[j], TextToCheck(ev))
      invariant d == Drop(NoKeywordMatched)
    {
      var textToCheck := TextToCheck(ev);
      if textToCheck != "" && Contains(Lower(textToCheck), Lower(keywords[i])) {
        assert FirstMatch(keywords, textToCheck) == Some(i);
        match destination {
          case None =>
            d := DestinationUnavailable(keywords[i]);
          case Some(dest) =>
            d := Relay(keywords[i], PlanRelay(db.channels, ev, dest));
        }
        break;
      }
    }
  }

  // ---- Properties of the decision -----------------------------------------

  /** A blacklisted sender is dropped whatever the chat and the text. */
  lemma BlacklistShortCircuit(db: Snapshot, ev: Event, destination: Option<int>)
    requires SenderIsBlacklisted(db.blacklist, ev.sender)
    ensures Admit(db, ev, destination) == Drop(SenderBlacklisted)
  {
  }

  /**
   * A message is relayed exactly when its sender is not blacklisted, its
   * chat is tracked, some keyword matches and the destination resolves.
   */
  lemma RelayIff(db: Snapshot, ev: Event, destination: Option<int>)
    ensures Admit(db, ev, destination).Relay? <==>
              && !SenderIsBlacklisted(db.blacklist, ev.sender)
              && IsTracked(db.channels, ev.chatId)
              && destination.Some?
              && exists j :: 0 <= j < |db.keywords| && KeywordMatches(db.keywords[j], TextToCheck(ev))
  {
  }

  /**
   * First match wins: the keyword relayed (or abandoned) is the earliest
   * matching one in storage order, even when later ones match too.
   */
  lemma FirstMatchWins(db: Snapshot, ev: Event, destination: Option<int>, i: nat)
    requires !SenderIsBlacklisted(db.blacklist, ev.sender) && IsTracked(db.channels, ev.chatId)
    requires i < |db.keywords| && KeywordMatches(db.keywords[i], TextToCheck(ev))
    requires forall j :: 0 <= j < i ==> !KeywordMatches(db.keywords[j], TextToCheck(ev))
    ensures Admit(db, ev, destination) == match destination
                                          case None => DestinationUnavailable(db.keywords[i])
                                          case Some(dest) => Relay(db.keywords[i], PlanRelay(db.channels, ev, dest))
  {
    var r := FirstMatch(db.keywords, TextToCheck(ev));
    assert r.Some?;
    assert r.value == i;
  }

  /** Keywords ["alpha", "beta"]; a message holding both is relayed once, for "alpha". */
  lemma AlphaBetaExample(channel: ChannelRow, ev: Event, dest: int)
    requires ev.chatId == channel.chatId && ev.sender == NoSender
    requires ev.text == Some("alpha and beta")
    ensures Admit(Snapshot([channel], ["alpha", "beta"], []), ev, Some(dest))
            == Relay("alpha", PlanRelay([channel], ev, dest))
  {
    var db := Snapshot([channel], ["alpha", "beta"], []);
    assert channel in db.channels;
    assert TextToCheck(ev) == "alpha and beta";
    var lowered := Lower("alpha and beta");
    assert lowered == "alpha and beta";
    assert Lower("alpha") == "alpha";
    assert StartsWith(lowered, "alpha");
    FirstMatchWins(db, ev, Some(dest), 0);
  }

  /**
   * A relay only happens for a tracked chat, whose type is known, so the
   * appended link is a real t.me link and never the text "None".
   */
  lemma RelayCarriesRealLink(db: Snapshot, ev: Event, dest: int)
    ensures var link := GenerateMessageLink(ev.chatId, ev.messageId, ChannelTypeOf(db.channels, ev.chatId), ev.chatUsername);
            Admit(db, ev, Some(dest)).Relay? ==> link.Some? && StartsWith(link.value, TmePrefix)
  {
  }

  /** A relay from a tracked private channel links back to the message it copies. */
  lemma PrivateRelayLinksBack(db: Snapshot, ev: Event, dest: int, row: ChannelRow)
    requires WellFormed(db)
    requires row in db.channels && row.chatId == ev.chatId && row.kind == Private
    ensures ParseMessageLink(GenerateMessageLink(ev.chatId, ev.messageId, ChannelTypeOf(db.channels, ev.chatId), ev.chatUsername).value)
            == Some(PrivatePost(PrivateLinkId(ev.chatId), ev.messageId))
  {
    ChannelTypeOfUnique(db.channels, row);
    PrivateLinkRoundTrip(ev.chatId, ev.messageId, ev.chatUsername);
  }
}
