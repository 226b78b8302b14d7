/**
 * The decision logic of the administrative command handlers that do more
 * than call one registry function: `on_add_channel`, `on_add_to_blacklist`
 * and `on_remove_from_blacklist`. Each starts from the already extracted
 * argument and returns which reply it sends.
 */
module Commands {
  import opened Wrappers
  import opened Text
  import opened Links
  import opened Tables
  import opened Store

  datatype AddChannelReply = CouldNotResolve | NotAMember | ChannelAdded | AlreadyAdded

  /**
   * `on_add_channel`: resolve the reference; refuse a failed lookup and a
   * preview (the account is not a member); otherwise `add_channel` with the
   * chat id and the type the resolver assigned.
   */
  method OnAddChannel(registry: Registry, url: string, getChat: string -> Option<ChatResult>) returns (reply: AddChannelReply)
    requires registry.Valid()
    modifies registry
    ensures registry.Valid()
    ensures match GetChannelInfo(url, getChat)
            case None => reply == CouldNotResolve && unchanged(registry)
            case Some(ChannelInfo(Preview, _)) => reply == NotAMember && unchanged(registry)
            case Some(ChannelInfo(FullChat(id, _), kind)) =>
              && (reply == ChannelAdded || reply == AlreadyAdded)
              && (reply == ChannelAdded <==> !ChannelClash(old(registry.channels), ChannelRow(id, CanonicalUrl(url), kind)))
              && registry.channels == (if reply == ChannelAdded
                                       then old(registry.channels) + [ChannelRow(id, CanonicalUrl(url), kind)]
                                       else old(registry.channels))
              && registry.totalChanges == old(registry.totalChanges) + (if reply == ChannelAdded then 1 else 0)
              && registry.keywords == old(registry.keywords) && registry.blacklist == old(registry.blacklist)
  {
    var info := GetChannelInfo(url, getChat);
    match info {
      case None =>
        reply := CouldNotResolve;
      case Some(ChannelInfo(Preview, _)) =>
        reply := NotAMember;
      case Some(ChannelInfo(FullChat(id, _), kind)) =>
        var ok := registry.AddChannel(id, url, kind);
        reply := if ok then ChannelAdded else AlreadyAdded;
    }
  }

  /**
   * The identifier of `/add_to_blacklist`: text starting with "@" is a
   * username, anything else must convert with `int()`, or the command
   * refuses it.
   */
  function ParseBlacklistArgument(arg: string): (r: Option<Identifier>)
    ensures StartsWith(arg, "@") ==> r == Some(ByName(arg))
    ensures !StartsWith(arg, "@") ==> (r.Some? <==> ParseInt(arg).Some?)
    ensures !StartsWith(arg, "@") && r.Some? ==> r.value == ById(ParseInt(arg).value)
  {
    if StartsWith(arg, "@") then Some(ByName(arg))
    else
      match ParseInt(arg)
      case Some(id) => Some(ById(id))
      case None => None
  }

  /** The numeral of any integer is accepted as that id. */
  lemma NumericArgumentRoundTrip(id: int)
    ensures ParseBlacklistArgument(IntToString(id)) == Some(ById(id))
  {
    ParseIntToString(id);
    var s := IntToString(id);
    assert s[0] != '@' by {
      if id >= 0 {
        assert IsDigit(NatToString(id)[0]);
      }
    }
  }

  datatype AddBlacklistReply = InvalidIdentifier | UserBlacklisted | AlreadyBlacklisted

  /**
   * `on_add_to_blacklist`: every False from `add_user_to_blacklist`
   * (including a failed platform lookup) is reported as "already listed".
   */
  method OnAddToBlacklist(registry: Registry, arg: string, lookup: Identifier -> Option<User>) returns (reply: AddBlacklistReply)
    requires registry.Valid()
    modifies registry
    ensures registry.Valid()
    ensures ParseBlacklistArgument(arg).None? ==> reply == InvalidIdentifier && unchanged(registry)
    ensures ParseBlacklistArgument(arg).Some? ==>
              var who := ParseBlacklistArgument(arg).value;
              var ok := BlacklistCandidate(who, lookup).Some? && !BlacklistClash(old(registry.blacklist), BlacklistCandidate(who, lookup).value);
              && reply == (if ok then UserBlacklisted else AlreadyBlacklisted)
              && registry.blacklist == (if ok then old(registry.blacklist) + [BlacklistCandidate(who, lookup).value] else old(registry.blacklist))
              && registry.totalChanges == old(registry.totalChanges) + (if ok then 1 else 0)
              && registry.channels == old(registry.channels) && registry.keywords == old(registry.keywords)
  {
    var parsed := ParseBlacklistArgument(arg);
    if parsed.None? {
      return InvalidIdentifier;
    }
    var ok := registry.AddUserToBlacklist(parsed.value, lookup);
    reply := if ok then UserBlacklisted else AlreadyBlacklisted;
  }

  /**
   * The user id `/remove_from_blacklist` acts on: leading "@"s stripped, a
   * digit string read as an id, anything else looked up as a stored
   * username by exact (case-sensitive) equality.
   */
  function RemovalTarget(arg: string, blacklist: seq<BlacklistRow>): (r: Option<int>)
    ensures IsDigits(LStrip(arg, '@')) ==> r == Some(ParseDigits(LStrip(arg, '@')))
    ensures !IsDigits(LStrip(arg, '@')) && r.Some? ==> BlacklistRow(r, Some(LStrip(arg, '@'))) in blacklist
  {
    var name := LStrip(arg, '@');
    if IsDigits(name) then Some(ParseDigits(name)) else UserIdByName(blacklist, name)
  }

  /** An id typed as digits (with or without "@") is taken as that id. */
  lemma NumericRemovalTarget(id: nat, blacklist: seq<BlacklistRow>)
    ensures RemovalTarget(NatToString(id), blacklist) == Some(id)
    ensures RemovalTarget("@" + NatToString(id), blacklist) == Some(id)
  {
    var s := NatToString(id);
    ParseNatToString(id);
    assert IsDigit(s[0]);
    assert LStrip(s, '@') == s;
    assert ("@" + s)[1..] == s;
    assert LStrip("@" + s, '@') == LStrip(s, '@');
  }

  /**
   * Stored usernames are lower case, so a name typed with an upper-case
   * letter is never found: the command reports "user not found".
   */
  lemma MixedCaseNameNotFound(arg: string, blacklist: seq<BlacklistRow>)
    requires forall row :: row in blacklist && row.username.Some? ==> IsLower(row.username.value)
    requires !IsDigits(LStrip(arg, '@')) && !IsLower(LStrip(arg, '@'))
    ensures RemovalTarget(arg, blacklist).None?
  {
  }

  /**
   * A listed user is found again by the exact stored username: with
   * usernames unique, the lookup yields that row's id.
   */
  lemma StoredNameFindsRow(blacklist: seq<BlacklistRow>, row: BlacklistRow, name: string)
    requires Distinct(blacklist, UsernameKey)
    requires row in blacklist && row.username == Some(name)
    requires !IsDigits(name) && (name == [] || name[0] != '@')
    ensures RemovalTarget("@" + name, blacklist) == row.userId
  {
    StripOneSigil(name);
    UserIdByNameUnique(blacklist, row);
  }

  lemma StripOneSigil(name: string)
    requires name == [] || name[0] != '@'
    ensures LStrip("@" + name, '@') == name
  {
    assert ("@" + name)[1..] == name;
  }

  datatype RemoveBlacklistReply = UserNotFound | UserRemoved | NotRemoved

  /**
   * `on_remove_from_blacklist`: find the id (see `RemovalTarget`), then
   * `remove_user_from_blacklist` by that id.
   */
  method OnRemoveFromBlacklist(registry: Registry, arg: string) returns (reply: RemoveBlacklistReply)
    requires registry.Valid()
    modifies registry
    ensures registry.Valid()
    ensures RemovalTarget(arg, old(registry.blacklist)).None? ==> reply == UserNotFound && unchanged(registry)
    ensures RemovalTarget(arg, old(registry.blacklist)).Some? ==>
              var id := RemovalTarget(arg, old(registry.blacklist)).value;
              && (reply == UserRemoved <==> exists row :: row in old(registry.blacklist) && row.userId == Some(id))
              && (reply == UserRemoved || reply == NotRemoved)
              && registry.blacklist == Filter(old(registry.blacklist), NotIdentifiedBy(ById(id)))
              && registry.totalChanges == old(registry.totalChanges) + (|old(registry.blacklist)| - |registry.blacklist|)
              && registry.channels == old(registry.channels) && registry.keywords == old(registry.keywords)
  {
    var target := RemovalTarget(arg, registry.blacklist);
    if target.None? {
      return UserNotFound;
    }
    var ok := registry.RemoveUserFromBlacklist(ById(target.value));
    reply := if ok then UserRemoved else NotRemoved;
  }
}
