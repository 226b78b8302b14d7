/**
 * Channel references and back-links: `generate_message_link`,
 * `convert_channel_url_to_entity`, the public/private classification in
 * `get_channel_info`, and the canonical form `add_channel` stores.
 */
module Links {
  import opened Wrappers
  import opened Text

  /** The two values the bot ever writes into the `type` column. */
  datatype ChannelKind = Public | Private

  const TmePrefix: string := "https://t.me/"
  const InvitePrefix: string := "https://t.me/+"
  const PrivatePrefix: string := "https://t.me/c/"

  /**
   * The channel part of a private back-link: the decimal numeral of
   * `|chat_id|` without its first three characters (the "100" of a
   * "-100..." supergroup id); shorter numerals leave nothing.
   */
  function PrivateLinkId(chatId: int): (r: string)
    ensures forall i :: 0 <= i < |r| ==> IsDigit(r[i])
    ensures '/' !in r
    ensures -1000 < chatId < 1000 ==> r == ""
  {
    var n := if chatId < 0 then -chatId else chatId;
    var digits := NatToString(n);
    assert Pow10(3) == 1000;
    NumeralLength(n, 3);
    if |digits| < 3 then "" else digits[3..]
  }

  /**
   * `generate_message_link`: a public post link from the username, a
   * private one from the chat id, and no link for an unknown type. A
   * missing username is rendered the way Python formats `None`.
   */
  function GenerateMessageLink(chatId: int, messageId: int, kind: Option<ChannelKind>, username: Option<string>): (r: Option<string>)
    ensures r.Some? <==> kind.Some?
    ensures r.Some? ==> StartsWith(r.value, TmePrefix)
  {
    match kind
    case Some(Public) => Some(TmePrefix + PyStr(username) + "/" + IntToString(messageId))
    case Some(Private) =>
      assert (PrivatePrefix + PrivateLinkId(chatId) + "/" + IntToString(messageId))[..|TmePrefix|] == TmePrefix;
      Some(PrivatePrefix + PrivateLinkId(chatId) + "/" + IntToString(messageId))
    case None => None
  }

  /** What a back-link points at. */
  datatype PostRef = PublicPost(username: string, messageId: int) | PrivatePost(channelId: string, messageId: int)

  /**
   * Reading a back-link: `https://t.me/<username>/<id>` or
   * `https://t.me/c/<channel>/<id>`.
   */
  function ParseMessageLink(link: string): Option<PostRef>
  {
    if !StartsWith(link, TmePrefix) then None
    else
      var (head, rest) := SplitFirst(link[|TmePrefix|..], '/');
      if rest.None? then None
      else if head == "c" then
        var (channel, tail) := SplitFirst(rest.value, '/');
        if tail.None? then None
        else
          match ParseInt(tail.value)
          case Some(id) => Some(PrivatePost(channel, id))
          case None => None
      else
        match ParseInt(rest.value)
        case Some(id) => Some(PublicPost(head, id))
        case None => None
  }

  /** A public back-link leads back to the username and message it was built from. */
  lemma PublicLinkRoundTrip(chatId: int, messageId: int, username: Option<string>)
    requires '/' !in PyStr(username) && PyStr(username) != "c"
    ensures ParseMessageLink(GenerateMessageLink(chatId, messageId, Some(Public), username).value)
            == Some(PublicPost(PyStr(username), messageId))
  {
    var name, id := PyStr(username), IntToString(messageId);
    var link := TmePrefix + name + "/" + id;
    assert link[..|TmePrefix|] == TmePrefix;
    assert link[|TmePrefix|..] == name + ['/'] + id;
    SplitFirstJoin(name, '/', id);
    ParseIntToString(messageId);
  }

  /** The worked example: public channel "news", message 42. */
  lemma PublicLinkExample()
    ensures GenerateMessageLink(0, 42, Some(Public), Some("news")) == Some("https://t.me/news/42")
  {
    assert NatToString(4) == "4";
    assert NatToString(42) == "42";
    assert IntToString(42) == "42";
    assert PyStr(Some("news")) == "news";
    assert TmePrefix + "news" + "/" + "42" == "https://t.me/news/42";
  }

  /** A chat id of three digits or fewer leaves an empty channel part: `https://t.me/c//7`. */
  lemma ShortPrivateIdExample()
    ensures PrivateLinkId(-100) == ""
    ensures GenerateMessageLink(-100, 7, Some(Private), None) == Some("https://t.me/c//7")
  {
    assert NatToString(1) == "1";
    assert NatToString(10) == "10";
    assert NatToString(100) == "100";
    assert IntToString(7) == "7";
    assert PrivatePrefix + "" + "/" + "7" == "https://t.me/c//7";
  }

  /** A private back-link leads back to the shortened chat id and the message it was built from. */
  lemma PrivateLinkRoundTrip(chatId: int, messageId: int, username: Option<string>)
    ensures ParseMessageLink(GenerateMessageLink(chatId, messageId, Some(Private), username).value)
            == Some(PrivatePost(PrivateLinkId(chatId), messageId))
  {
    var channel, id := PrivateLinkId(chatId), IntToString(messageId);
    var link := PrivatePrefix + channel + "/" + id;
    assert link[..|TmePrefix|] == TmePrefix;
    assert link[|TmePrefix|..] == "c" + ['/'] + (channel + "/" + id);
    SplitFirstJoin("c", '/', channel + "/" + id);
    SplitFirstJoin(channel, '/', id);
    ParseIntToString(messageId);
  }

  /**
   * For a private channel whose platform id is `-100` followed by the
   * `d` digits of its internal id `c`, the back-link carries exactly `c`.
   */
  lemma {:induction false} PrivateLinkUsesInternalId(c: nat, d: nat, messageId: int)
    requires d >= 1 && Pow10(d - 1) <= c < Pow10(d)
    ensures GenerateMessageLink(-(100 * Pow10(d) + c), messageId, Some(Private), None)
            == Some(PrivatePrefix + NatToString(c) + "/" + IntToString(messageId))
  {
    NatToStringAppend(100, c, d);
    assert NatToString(100) == "100" by {
      assert NatToString(1) == "1";
      assert NatToString(10) == NatToString(1) + "0";
    }
    var digits := NatToString(100 * Pow10(d) + c);
    assert digits[3..] == NatToString(c);
  }

  /** The worked example: chat -1001234567890, message 7. */
  lemma PrivateLinkExample()
    ensures GenerateMessageLink(-1001234567890, 7, Some(Private), None) == Some("https://t.me/c/1234567890/7")
  {
    TenDigitPowers();
    PrivateLinkUsesInternalId(1234567890, 10, 7);
    ExampleNumeral();
    assert -(100 * Pow10(10) + 1234567890) == -1001234567890;
    var link := PrivatePrefix + NatToString(1234567890) + "/" + IntToString(7);
    assert IntToString(7) == "7";
    assert link == "https://t.me/c/1234567890/7";
  }

  lemma TenDigitPowers()
    ensures Pow10(9) == 1000000000 && Pow10(10) == 10000000000
  {
    assert Pow10(4) == 10000;
    assert Pow10(8) == 100000000;
  }

  lemma ExampleNumeral()
    ensures NatToString(1234567890) == "1234567890"
  {
    assert NatToString(12) == "12";
    assert NatToString(1234) == "1234";
    assert NatToString(123456) == "123456";
    assert NatToString(12345678) == "12345678";
  }

  /**
   * `convert_channel_url_to_entity`: a t.me URL becomes "@" followed by the
   * URL with every "https://t.me/" removed; anything else is passed through.
   */
  function EntityOf(url: string): (r: string)
    ensures !StartsWith(url, TmePrefix) ==> r == url
    ensures StartsWith(url, TmePrefix) ==> |r| >= 1 && r[0] == '@' && |r| <= |url| - |TmePrefix| + 1
  {
    if StartsWith(url, TmePrefix) then "@" + RemoveAll(url, TmePrefix) else url
  }

  /**
   * The url `add_channel` stores: t.me URLs as given, anything else as the
   * t.me prefix followed by the reference with its leading "@"s stripped.
   */
  function CanonicalUrl(url: string): (r: string)
    ensures StartsWith(r, TmePrefix)
    ensures StartsWith(url, TmePrefix) ==> r == url
    ensures !StartsWith(url, TmePrefix) ==> r[|TmePrefix|..] == LStrip(url, '@')
  {
    if StartsWith(url, TmePrefix) then url
    else
      assert (TmePrefix + LStrip(url, '@'))[..|TmePrefix|] == TmePrefix;
      TmePrefix + LStrip(url, '@')
  }

  /**
   * A bare handle ("news" or "@news") stored in canonical form is looked up
   * again as "@news": canonicalising and converting back to an entity meet.
   */
  lemma HandleRoundTrip(handle: string)
    requires !StartsWith(handle, TmePrefix)
    requires !Contains(LStrip(handle, '@'), TmePrefix)
    ensures EntityOf(CanonicalUrl(handle)) == "@" + LStrip(handle, '@')
  {
    var bare := LStrip(handle, '@');
    var url := TmePrefix + bare;
    assert url[..|TmePrefix|] == TmePrefix && url[|TmePrefix|..] == bare;
    RemoveAllAbsent(bare, TmePrefix);
  }

  /** How `get_channel_info` looks a reference up, and the type it records. */
  datatype ChatQuery = ChatQuery(key: string, kind: ChannelKind)

  /**
   * The classification branch of `get_channel_info`: an invite link
   * ("https://t.me/+...") is fetched as given and is private; any other
   * reference is fetched by its entity form and is public.
   */
  function ClassifyReference(ref: string): (q: ChatQuery)
    ensures q.kind == Private <==> StartsWith(ref, InvitePrefix)
    ensures q.kind == Private ==> q.key == ref && CanonicalUrl(ref) == ref
    ensures q.kind == Public ==> q.key == EntityOf(ref)
  {
    if StartsWith(ref, InvitePrefix) then
      assert ref[..|TmePrefix|] == InvitePrefix[..|TmePrefix|];
      ChatQuery(ref, Private)
    else ChatQuery(EntityOf(ref), Public)
  }

  /** What the platform's `get_chat` returns: a chat, or only a preview for a non-member. */
  datatype ChatResult = FullChat(id: int, username: Option<string>) | Preview

  datatype ChannelInfo = ChannelInfo(chat: ChatResult, kind: ChannelKind)

  /**
   * `get_channel_info`: classify the reference and fetch it; any platform
   * error (`getChat` yields None) becomes None.
   */
  function GetChannelInfo(ref: string, getChat: string -> Option<ChatResult>): (r: Option<ChannelInfo>)
    ensures r.Some? <==> getChat(ClassifyReference(ref).key).Some?
    ensures r.Some? ==> r.value.kind == ClassifyReference(ref).kind
                        && Some(r.value.chat) == getChat(ClassifyReference(ref).key)
  {
    var q := ClassifyReference(ref);
    match getChat(q.key)
    case Some(chat) => Some(ChannelInfo(chat, q.kind))
    case None => None
  }
}
