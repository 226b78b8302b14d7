/**
 * The SQLite connection as an object: the three tables, in storage order,
 * and the connection's cumulative `total_changes` counter. Each method is
 * one of the registry functions that insert into or delete from a table.
 */
module Store {
  import opened Wrappers
  import opened Text
  import opened Links
  import opened Tables

  /**
   * The IntegrityError of `add_channel`: the chat id or the url of the new
   * row is already stored. On a table that meets its UNIQUE constraints,
   * a clash is exactly what appending the row would violate.
   */
  predicate ChannelClash(channels: seq<ChannelRow>, row: ChannelRow)
    ensures Distinct(channels, ChatIdKey) && Distinct(channels, UrlKey) ==>
              (ChannelClash(channels, row) <==>
                 !(Distinct(channels + [row], ChatIdKey) && Distinct(channels + [row], UrlKey)))
  {
    if exists prior :: prior in channels && prior.chatId == row.chatId then
      var prior :| prior in channels && prior.chatId == row.chatId;
      AppendBreaksDistinct(channels, row, prior, ChatIdKey);
      true
    else if exists prior :: prior in channels && prior.url == row.url then
      var prior :| prior in channels && prior.url == row.url;
      AppendBreaksDistinct(channels, row, prior, UrlKey);
      true
    else
      AppendKeepsDistinct(channels, row, ChatIdKey);
      AppendKeepsDistinct(channels, row, UrlKey);
      false
  }

  /**
   * Why `add_user_to_blacklist` refuses a row: its user id is already
   * listed (the explicit check) or its username is taken (the caught
   * IntegrityError). On a table that meets its UNIQUE constraints, this is
   * exactly what appending the row would violate; NULLs never clash.
   */
  predicate BlacklistClash(blacklist: seq<BlacklistRow>, entry: BlacklistRow)
    ensures Distinct(blacklist, UserIdKey) && Distinct(blacklist, UsernameKey) ==>
              (BlacklistClash(blacklist, entry) <==>
                 !(Distinct(blacklist + [entry], UserIdKey) && Distinct(blacklist + [entry], UsernameKey)))
  {
    if entry.userId.Some? && exists prior :: prior in blacklist && prior.userId == entry.userId then
      var prior :| prior in blacklist && prior.userId == entry.userId;
      AppendBreaksDistinct(blacklist, entry, prior, UserIdKey);
      true
    else if entry.username.Some? && exists prior :: prior in blacklist && prior.username == entry.username then
      var prior :| prior in blacklist && prior.username == entry.username;
      AppendBreaksDistinct(blacklist, entry, prior, UsernameKey);
      true
    else
      AppendKeepsDistinct(blacklist, entry, UserIdKey);
      AppendKeepsDistinct(blacklist, entry, UsernameKey);
      false
  }

  /** A platform user as `get_users` reports it. */
  datatype User = User(id: int, username: Option<string>)

  /**
   * The row `add_user_to_blacklist` tries to insert, or None when it
   * returns False before touching the table: a text argument without a
   * leading "@", or a failed `get_users` call (`lookup` yields None). An id
   * keeps the user's lowercased username if they have one; a name is
   * lowercased and keeps the id `get_users` returns unless that id is 0.
   */
  function BlacklistCandidate(who: Identifier, lookup: Identifier -> Option<User>): (r: Option<BlacklistRow>)
    ensures who.ByName? && !StartsWith(who.name, "@") ==> r.None?
    ensures who.ById? ==>
              match lookup(who)
              case None => r.None?
              case Some(user) =>
                r == Some(BlacklistRow(Some(who.id), if Truthy(user.username) then Some(Lower(user.username.value)) else None))
    ensures who.ByName? && StartsWith(who.name, "@") ==>
              match lookup(ByName(Lower(who.name[1..])))
              case None => r.None?
              case Some(user) =>
                r == Some(BlacklistRow(if user.id != 0 then Some(user.id) else None, Some(Lower(who.name[1..]))))
    ensures r.Some? && r.value.username.Some? ==> IsLower(r.value.username.value)
  {
    match who
    case ById(id) =>
      (match lookup(ById(id))
       case None => None
       case Some(user) =>
         if Truthy(user.username) then
           LowerIsLower(user.username.value);
           Some(BlacklistRow(Some(id), Some(Lower(user.username.value))))
         else Some(BlacklistRow(Some(id), None)))
    case ByName(text) =>
      if !StartsWith(text, "@") then None
      else
        var name := Lower(text[1..]);
        LowerIsLower(text[1..]);
        match lookup(ByName(name))
        case None => None
        case Some(user) => Some(BlacklistRow(if user.id != 0 then Some(user.id) else None, Some(name)))
  }

  class Registry {
    var channels: seq<ChannelRow>
    var keywords: seq<string>
    var blacklist: seq<BlacklistRow>
    var totalChanges: nat

    /**
     * The UNIQUE constraints of the schema, plus what every insert path
     * guarantees: stored urls are canonical and stored usernames lower case.
     */
    ghost predicate Valid()
      reads this
    {
      && Distinct(channels, ChatIdKey) && Distinct(channels, UrlKey)
      && (forall row :: row in channels ==> StartsWith(row.url, TmePrefix))
      && Distinct(keywords, KeywordKey)
      && Distinct(blacklist, UserIdKey) && Distinct(blacklist, UsernameKey)
      && (forall row :: row in blacklist && row.username.Some? ==> IsLower(row.username.value))
    }

    /** A freshly created database: `create_tables` on an empty file. */
    constructor ()
      ensures Valid()
      ensures channels == [] && keywords == [] && blacklist == [] && totalChanges == 0
    {
      channels, keywords, blacklist, totalChanges := [], [], [], 0;
    }

    /** What `get_channels`, `get_keywords` and `get_blacklist` return. */
    function ReadAll(): (s: Snapshot)
      reads this
      ensures s.channels == channels && s.keywords == keywords && s.blacklist == blacklist
    {
      Snapshot(channels, keywords, blacklist)
    }

    /** What the monitoring path reads from a consistent registry meets the UNIQUE constraints. */
    lemma ReadAllMeetsConstraints()
      requires Valid()
      ensures WellFormed(ReadAll())
    {
    }

    /**
     * `add_channel`: canonicalise the url, then insert one row unless the
     * chat id or the url is already stored (the IntegrityError case).
     */
    method AddChannel(chatId: int, url: string, kind: ChannelKind) returns (ok: bool)
      requires Valid()
      modifies this
      ensures Valid()
      ensures ok <==> !ChannelClash(old(channels), ChannelRow(chatId, CanonicalUrl(url), kind))
      ensures channels == if ok then old(channels) + [ChannelRow(chatId, CanonicalUrl(url), kind)] else old(channels)
      ensures totalChanges == old(totalChanges) + (if ok then 1 else 0)
      ensures keywords == old(keywords) && blacklist == old(blacklist)
    {
      var row := ChannelRow(chatId, CanonicalUrl(url), kind);
      if ChannelClash(channels, row) {
        return false;
      }
      channels := channels + [row];
      totalChanges := totalChanges + 1;
      ok := true;
    }

    /**
     * `remove_channel`: delete the rows whose stored url equals the argument
     * (not canonicalised, so a bare handle deletes nothing), then report the
     * connection's cumulative change count, not this call's.
     */
    method RemoveChannel(url: string) returns (ok: bool)
      requires Valid()
      modifies this
      ensures Valid()
      ensures channels == Filter(old(channels), UrlIsNot(url))
      ensures !StartsWith(url, TmePrefix) ==> channels == old(channels)
      ensures totalChanges == old(totalChanges) + (|old(channels)| - |channels|)
      ensures ok <==> totalChanges > 0
      ensures ok <==> old(totalChanges) > 0 || exists row :: row in old(channels) && row.url == url
      ensures keywords == old(keywords) && blacklist == old(blacklist)
    {
      DeleteChannels(url);
      ok := totalChanges > 0;
    }

    /**
     * The corrected `remove_channel`: the same deletion, reporting whether
     * THIS call deleted a row.
     */
    method RemoveChannelIfTracked(url: string) returns (deleted: bool)
      requires Valid()
      modifies this
      ensures Valid()
      ensures channels == Filter(old(channels), UrlIsNot(url))
      ensures totalChanges == old(totalChanges) + (|old(channels)| - |channels|)
      ensures deleted <==> exists row :: row in old(channels) && row.url == url
      ensures keywords == old(keywords) && blacklist == old(blacklist)
    {
      var before := totalChanges;
      DeleteChannels(url);
      deleted := totalChanges > before;
    }

    /** `DELETE FROM channels WHERE url = ?` and its effect on `total_changes`. */
    method DeleteChannels(url: string)
      requires Valid()
      modifies this
      ensures Valid()
      ensures channels == Filter(old(channels), UrlIsNot(url))
      ensures !StartsWith(url, TmePrefix) ==> channels == old(channels)
      ensures totalChanges == old(totalChanges) + (|old(channels)| - |channels|)
      ensures keywords == old(keywords) && blacklist == old(blacklist)
    {
      var kept := Filter(channels, UrlIsNot(url));
      FilterKeepsDistinct(channels, UrlIsNot(url), ChatIdKey);
      FilterKeepsDistinct(channels, UrlIsNot(url), UrlKey);
      if !StartsWith(url, TmePrefix) {
        assert forall row :: row in channels ==> UrlIsNot(url)(row);
      }
      totalChanges := totalChanges + (|channels| - |kept|);
      channels := kept;
    }

    /** `add_keyword`: insert unless exactly this text (case-sensitive) is stored. */
    method AddKeyword(keyword: string) returns (ok: bool)
      requires Valid()
      modifies this
      ensures Valid()
      ensures ok <==> keyword !in old(keywords)
      ensures keywords == if ok then old(keywords) + [keyword] else old(keywords)
      ensures totalChanges == old(totalChanges) + (if ok then 1 else 0)
      ensures channels == old(channels) && blacklist == old(blacklist)
    {
      if keyword in keywords {
        return false;
      }
      AppendKeepsDistinct(keywords, keyword, KeywordKey);
      keywords := keywords + [keyword];
      totalChanges := totalChanges + 1;
      ok := true;
    }

    /**
     * `remove_keyword`: delete the exactly-equal keyword, then report the
     * cumulative change count.
     */
    method RemoveKeyword(keyword: string) returns (ok: bool)
      requires Valid()
      modifies this
      ensures Valid()
      ensures keywords == Filter(old(keywords), KeywordIsNot(keyword))
      ensures totalChanges == old(totalChanges) + (|old(keywords)| - |keywords|)
      ensures ok <==> totalChanges > 0
      ensures ok <==> old(totalChanges) > 0 || keyword in old(keywords)
      ensures channels == old(channels) && blacklist == old(blacklist)
    {
      DeleteKeywords(keyword);
      ok := totalChanges > 0;
    }

    /** The corrected `remove_keyword`: reports whether THIS call deleted the keyword. */
    method RemoveKeywordIfPresent(keyword: string) returns (deleted: bool)
      requires Valid()
      modifies this
      ensures Valid()
      ensures keywords == Filter(old(keywords), KeywordIsNot(keyword))
      ensures totalChanges == old(totalChanges) + (|old(keywords)| - |keywords|)
      ensures deleted <==> keyword in old(keywords)
      ensures channels == old(channels) && blacklist == old(blacklist)
    {
      var before := totalChanges;
      DeleteKeywords(keyword);
      deleted := totalChanges > before;
    }

    /** `DELETE FROM keywords WHERE keyword = ?` and its effect on `total_changes`. */
    method DeleteKeywords(keyword: string)
      requires Valid()
      modifies this
      ensures Valid()
      ensures keywords == Filter(old(keywords), KeywordIsNot(keyword))
      ensures totalChanges == old(totalChanges) + (|old(keywords)| - |keywords|)
      ensures channels == old(channels) && blacklist == old(blacklist)
    {
      var kept := Filter(keywords, KeywordIsNot(keyword));
      FilterKeepsDistinct(keywords, KeywordIsNot(keyword), KeywordKey);
      assert keyword in keywords ==> !KeywordIsNot(keyword)(keyword);
      totalChanges := totalChanges + (|keywords| - |kept|);
      keywords := kept;
    }

    /**
     * `add_user_to_blacklist`: build the row (see `BlacklistCandidate`);
     * refuse it when the user id is already listed or the username is taken
     * (the caught IntegrityError); otherwise insert it.
     */
    method AddUserToBlacklist(who: Identifier, lookup: Identifier -> Option<User>) returns (ok: bool)
      requires Valid()
      modifies this
      ensures Valid()
      ensures ok <==> BlacklistCandidate(who, lookup).Some?
                      && !BlacklistClash(old(blacklist), BlacklistCandidate(who, lookup).value)
      ensures blacklist == if ok then old(blacklist) + [BlacklistCandidate(who, lookup).value] else old(blacklist)
      ensures totalChanges == old(totalChanges) + (if ok then 1 else 0)
      ensures channels == old(channels) && keywords == old(keywords)
    {
      var candidate := BlacklistCandidate(who, lookup);
      if candidate.None? {
        return false;
      }
      var entry := candidate.value;
      if entry.userId.Some? && exists row :: row in blacklist && row.userId == entry.userId {
        return false;
      }
      if BlacklistClash(blacklist, entry) {
        return false;
      }
      blacklist := blacklist + [entry];
      totalChanges := totalChanges + 1;
      ok := true;
    }

    /**
     * `remove_user_from_blacklist`: False when no row carries the id (or
     * username); otherwise delete those rows and report `total_changes > 0`,
     * which the deletion itself has made true.
     */
    method RemoveUserFromBlacklist(who: Identifier) returns (ok: bool)
      requires Valid()
      modifies this
      ensures Valid()
      ensures ok <==> exists row :: row in old(blacklist) && Identifies(who, row)
      ensures blacklist == Filter(old(blacklist), NotIdentifiedBy(who))
      ensures forall row :: row in blacklist ==> !Identifies(who, row)
      ensures totalChanges == old(totalChanges) + (|old(blacklist)| - |blacklist|)
      ensures channels == old(channels) && keywords == old(keywords)
    {
      if !exists row :: row in blacklist && Identifies(who, row) {
        assert forall row :: row in blacklist ==> NotIdentifiedBy(who)(row);
        return false;
      }
      var kept := Filter(blacklist, NotIdentifiedBy(who));
      FilterKeepsDistinct(blacklist, NotIdentifiedBy(who), UserIdKey);
      FilterKeepsDistinct(blacklist, NotIdentifiedBy(who), UsernameKey);
      totalChanges := totalChanges + (|blacklist| - |kept|);
      blacklist := kept;
      ok := totalChanges > 0;
    }
  }

  /**
   * `remove_channel` and `remove_keyword` as written: once anything has
   * changed on the connection, removing a url that was never tracked, or a
   * keyword that was never added, still reports success.
   */
  method StaleRemovalReport() returns (channelRemoved: bool, keywordRemoved: bool)
    ensures channelRemoved && keywordRemoved
  {
    var registry := new Registry();
    var added := registry.AddKeyword("sale");
    assert added;
    channelRemoved := registry.RemoveChannel("https://t.me/never_added");
    assert registry.channels == [];
    keywordRemoved := registry.RemoveKeyword("absent");
    assert registry.keywords == ["sale"];
  }
}
