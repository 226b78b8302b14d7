/**
 * The rows of the three registry tables (`channels`, `keywords`,
 * `blacklist`), the UNIQUE constraints on them, row deletion, and the
 * read-only lookups `get_channel_type` and `is_user_blacklisted`.
 * Tables are sequences in storage (rowid) order.
 */
module Tables {
  import opened Wrappers
  import opened Text
  import opened Links

  datatype ChannelRow = ChannelRow(chatId: int, url: string, kind: ChannelKind)

  /** A blacklist row; either column may be NULL. */
  datatype BlacklistRow = BlacklistRow(userId: Option<int>, username: Option<string>)

  /** The two kinds of argument the blacklist functions accept: an `int` or a `str`. */
  datatype Identifier = ById(id: int) | ByName(name: string)

  /** All three tables as one value, as the monitoring path reads them. */
  datatype Snapshot = Snapshot(channels: seq<ChannelRow>, keywords: seq<string>, blacklist: seq<BlacklistRow>)

  // ---- Deletion -----------------------------------------------------------

  /** `DELETE ... WHERE NOT keep`: the rows `keep` accepts, in their order. */
  function Filter<T(!new)>(s: seq<T>, keep: T -> bool): (r: seq<T>)
    ensures |r| <= |s|
    ensures forall x :: x in r <==> x in s && keep(x)
    ensures (forall x :: x in s ==> keep(x)) ==> r == s
    ensures (exists x :: x in s && !keep(x)) ==> |r| < |s|
  {
    if s == [] then []
    else if keep(s[0]) then [s[0]] + Filter(s[1..], keep)
    else Filter(s[1..], keep)
  }

  function UrlIsNot(url: string): ChannelRow -> bool
  {
    (row: ChannelRow) => row.url != url
  }

  function KeywordIsNot(keyword: string): string -> bool
  {
    (k: string) => k != keyword
  }

  /** The rows `DELETE FROM blacklist WHERE user_id = ?` / `WHERE username = ?` leaves. */
  function NotIdentifiedBy(who: Identifier): BlacklistRow -> bool
  {
    (row: BlacklistRow) => !Identifies(who, row)
  }

  predicate Identifies(who: Identifier, row: BlacklistRow)
  {
    match who
    case ById(id) => row.userId == Some(id)
    case ByName(name) => row.username == Some(name)
  }

  // ---- UNIQUE constraints -------------------------------------------------

  /** A UNIQUE column: no two rows share a non-NULL key (NULLs never clash). */
  ghost predicate Distinct<T, K>(s: seq<T>, key: T -> Option<K>)
  {
    forall i, j :: 0 <= i < j < |s| && key(s[i]).Some? ==> key(s[i]) != key(s[j])
  }

  function ChatIdKey(row: ChannelRow): Option<int> { Some(row.chatId) }
  function UrlKey(row: ChannelRow): Option<string> { Some(row.url) }
  function KeywordKey(keyword: string): Option<string> { Some(keyword) }
  function UserIdKey(row: BlacklistRow): Option<int> { row.userId }
  function UsernameKey(row: BlacklistRow): Option<string> { row.username }

  /** Appending a row whose key is new (or NULL) keeps the column unique. */
  lemma AppendKeepsDistinct<T, K>(s: seq<T>, x: T, key: T -> Option<K>)
    ensures Distinct(s, key) && (key(x).Some? ==> forall y :: y in s ==> key(y) != key(x)) ==>
              Distinct(s + [x], key)
  {
    if Distinct(s, key) && (key(x).Some? ==> forall y :: y in s ==> key(y) != key(x)) {
      var t := s + [x];
      forall i, j | 0 <= i < j < |t| && key(t[i]).Some? ensures key(t[i]) != key(t[j]) {
        if j == |s| {
          assert t[i] in s;
        }
      }
    }
  }

  /** Appending a row whose non-NULL key is already present breaks the column's uniqueness. */
  lemma AppendBreaksDistinct<T, K>(s: seq<T>, x: T, y: T, key: T -> Option<K>)
    requires y in s && key(x).Some? && key(y) == key(x)
    ensures !Distinct(s + [x], key)
  {
    var t := s + [x];
    var i :| 0 <= i < |s| && s[i] == y;
    assert t[i] == y && t[|s|] == x;
  }

  /** Deleting rows keeps a column unique. */
  lemma {:induction false} FilterKeepsDistinct<T(!new), K>(s: seq<T>, keep: T -> bool, key: T -> Option<K>)
    requires Distinct(s, key)
    ensures Distinct(Filter(s, keep), key)
  {
    if s != [] {
      assert Distinct(s[1..], key) by {
        forall i, j | 0 <= i < j < |s[1..]| && key(s[1..][i]).Some? ensures key(s[1..][i]) != key(s[1..][j]) {
          assert s[1..][i] == s[i + 1] && s[1..][j] == s[j + 1];
        }
      }
      FilterKeepsDistinct(s[1..], keep, key);
      if keep(s[0]) {
        var rest := Filter(s[1..], keep);
        var r := [s[0]] + rest;
        forall i, j | 0 <= i < j < |r| && key(r[i]).Some? ensures key(r[i]) != key(r[j]) {
          if i == 0 {
            assert r[j] in s[1..];
            var k :| 0 <= k < |s[1..]| && s[1..][k] == r[j];
            assert s[k + 1] == r[j];
          } else {
            assert r[i] == rest[i - 1] && r[j] == rest[j - 1];
          }
        }
      }
    }
  }

  /** The UNIQUE constraints of the schema, over all three tables. */
  ghost predicate WellFormed(db: Snapshot)
  {
    && Distinct(db.channels, ChatIdKey) && Distinct(db.channels, UrlKey)
    && Distinct(db.keywords, KeywordKey)
    && Distinct(db.blacklist, UserIdKey) && Distinct(db.blacklist, UsernameKey)
  }

  // ---- Lookups ------------------------------------------------------------

  /**
   * `any(channel[1] == chat_id for channel in get_channels())`: the chat
   * is tracked exactly when `get_channel_type` finds a type for it.
   */
  predicate IsTracked(channels: seq<ChannelRow>, chatId: int)
    ensures IsTracked(channels, chatId) <==> ChannelTypeOf(channels, chatId).Some?
  {
    exists row :: row in channels && row.chatId == chatId
  }

  /** `get_channel_type`: the type of the first row with this chat id, or None. */
  function ChannelTypeOf(channels: seq<ChannelRow>, chatId: int): (r: Option<ChannelKind>)
    ensures r.None? <==> forall row :: row in channels ==> row.chatId != chatId
    ensures r.Some? ==> ChannelRow(chatId, ChannelUrlOf(channels, chatId), r.value) in channels
  {
    if channels == [] then None
    else if channels[0].chatId == chatId then Some(channels[0].kind)
    else ChannelTypeOf(channels[1..], chatId)
  }

  /** The url of the first row with this chat id (specification only). */
  ghost function ChannelUrlOf(channels: seq<ChannelRow>, chatId: int): string
  {
    if channels == [] then ""
    else if channels[0].chatId == chatId then channels[0].url
    else ChannelUrlOf(channels[1..], chatId)
  }

  /** With chat ids unique, the type found is that of THE row for the chat. */
  lemma ChannelTypeOfUnique(channels: seq<ChannelRow>, row: ChannelRow)
    requires Distinct(channels, ChatIdKey) && row in channels
    ensures ChannelTypeOf(channels, row.chatId) == Some(row.kind)
  {
    var r := ChannelTypeOf(channels, row.chatId);
    var found := ChannelRow(row.chatId, ChannelUrlOf(channels, row.chatId), r.value);
    var i :| 0 <= i < |channels| && channels[i] == row;
    var j :| 0 <= j < |channels| && channels[j] == found;
    assert i == j;
  }

  /**
   * SQLite's comparison of a bound text value with the INTEGER `user_id`
   * column: the text takes numeric affinity, so it can equal a stored id
   * only when it reads as an integer literal.
   */
  function TextAsUserId(text: string): Option<int>
  {
    ParseInt(text)
  }

  /**
   * `is_user_blacklisted`: `SELECT ... WHERE user_id = ?`. An integer is
   * compared with the stored ids; a username is compared with the same
   * integer column, never with `username`.
   */
  function IsUserBlacklisted(blacklist: seq<BlacklistRow>, who: Identifier): (r: bool)
    ensures r <==> exists id :: (who == ById(id) || (who.ByName? && TextAsUserId(who.name) == Some(id)))
                               && BlacklistRow(Some(id), UsernameOf(blacklist, id)) in blacklist
  {
    var id := match who
              case ById(id) => Some(id)
              case ByName(name) => TextAsUserId(name);
    id.Some? && HasUserId(blacklist, id.value)
  }

  function HasUserId(blacklist: seq<BlacklistRow>, id: int): (r: bool)
    ensures r <==> BlacklistRow(Some(id), UsernameOf(blacklist, id)) in blacklist
    ensures r <==> exists row :: row in blacklist && row.userId == Some(id)
  {
    if blacklist == [] then false
    else blacklist[0].userId == Some(id) || HasUserId(blacklist[1..], id)
  }

  /** The username of the first row with this id (specification only). */
  ghost function UsernameOf(blacklist: seq<BlacklistRow>, id: int): Option<string>
  {
    if blacklist == [] then None
    else if blacklist[0].userId == Some(id) then blacklist[0].username
    else UsernameOf(blacklist[1..], id)
  }

  /**
   * A platform username begins with a letter, so asking by username never
   * finds anything, whatever the table holds (usernames included).
   */
  lemma UsernameNeverBlacklisted(blacklist: seq<BlacklistRow>, name: string)
    requires |name| > 0 && ('a' <= name[0] <= 'z' || 'A' <= name[0] <= 'Z')
    ensures !IsUserBlacklisted(blacklist, ByName(name))
  {
  }

  /** Concretely: a row for user 5 named "spammer" does not block the text "spammer". */
  lemma StoredUsernameIsNotMatched()
    ensures IsUserBlacklisted([BlacklistRow(Some(5), Some("spammer"))], ById(5))
    ensures !IsUserBlacklisted([BlacklistRow(Some(5), Some("spammer"))], ByName("spammer"))
  {
    assert HasUserId([BlacklistRow(Some(5), Some("spammer"))], 5);
  }

  /**
   * The username lookup of `on_remove_from_blacklist`:
   * `SELECT user_id FROM blacklist WHERE username = ?`, first row; a row
   * whose `user_id` is NULL yields no id.
   */
  function UserIdByName(blacklist: seq<BlacklistRow>, name: string): (r: Option<int>)
    ensures r.Some? ==> BlacklistRow(r, Some(name)) in blacklist
    ensures (exists row :: row in blacklist && row.username == Some(name)) ==> BlacklistRow(r, Some(name)) in blacklist
    ensures (forall row :: row in blacklist ==> row.username != Some(name)) ==> r.None?
  {
    if blacklist == [] then None
    else if blacklist[0].username == Some(name) then blacklist[0].userId
    else UserIdByName(blacklist[1..], name)
  }

  /** With usernames unique, looking a stored username up yields that row's id. */
  lemma UserIdByNameUnique(blacklist: seq<BlacklistRow>, row: BlacklistRow)
    requires Distinct(blacklist, UsernameKey)
    requires row in blacklist && row.username.Some?
    ensures UserIdByName(blacklist, row.username.value) == row.userId
  {
    var found := BlacklistRow(UserIdByName(blacklist, row.username.value), row.username);
    var i :| 0 <= i < |blacklist| && blacklist[i] == row;
    var j :| 0 <= j < |blacklist| && blacklist[j] == found;
    assert i == j;
  }
}
