# tg_track monitor — a Dafny model

tg_track is a Telegram bot built on pyrogram and SQLite. A member account
listens to a set of tracked channels. When a message contains one of the
configured keywords, the bot relays it, with a back-link to the original,
to a single destination channel. Messages from blacklisted senders are
ignored. The whole program is `main.py`.

This project models the part of `main.py` that makes decisions:

- **The registry** (module `Store`, class `Registry`). It holds the three
  SQLite tables `channels`, `keywords` and `blacklist` as sequences of rows
  in storage order, plus the connection's cumulative `total_changes`
  counter. Its methods are the six registry functions that insert and
  delete rows. `Valid()` is the schema's UNIQUE constraints, plus two facts
  every insert path guarantees: stored urls are canonical and stored
  usernames are lower case. Every method preserves `Valid()`.
- **The table rows and lookups** (module `Tables`): `get_channel_type`,
  `is_user_blacklisted` and the username lookup of
  `/remove_from_blacklist`. Deletion is `Filter`, and deleting keeps every
  UNIQUE column unique.
- **References and links** (module `Links`):
  - `generate_message_link`, with a parser for the links it builds;
  - `convert_channel_url_to_entity`;
  - the url canonicalisation in `add_channel`;
  - the public/private classification in `get_channel_info`.
- **Admission and relay** (module `Monitor`). `Admit` is the decision of
  `on_message` as a function. `OnMessage` is the handler's keyword loop,
  with its `break`, proved equal to `Admit`. The relay is returned as a
  value: a `CopyMessage` or `SendMessage` call.
- **Admin commands** (module `Commands`): `on_add_channel`, the identifier
  parsing of `/add_to_blacklist`, and the id lookup of
  `/remove_from_blacklist`.
- **Python built-ins** (module `Text`): `startswith`, `lstrip`,
  `replace(p, "")`, `in`, ASCII `lower`, `str(int)`, `int(str)` and
  `isdigit`.

Platform calls are inputs:

- `get_chat` is a function from a reference to `Option<ChatResult>`
  (None stands for an exception).
- `get_users` is a function from an `Identifier` to `Option<User>`.
- The destination channel's id in `on_message` is an `Option<int>`.

Four behaviours of the code that a reader might not expect, all modelled
as written:

- **Known user id in the blacklist.** The `ON CONFLICT(user_id) DO UPDATE`
  clause at main.py:176 never fires. The SELECT at main.py:168-171 returns
  False first whenever the id is already listed, so the stored username is
  never updated.
- **Blacklist check by username.** main.py:422 passes the sender's
  username to `is_user_blacklisted`. That function compares its argument
  with the INTEGER `user_id` column (main.py:215-218), so a name that is
  not a numeral never matches.
- **Unknown channel type.** When `get_channel_type` finds no row,
  `generate_message_link` returns None. The f-strings at main.py:453 and
  main.py:459 then write the text "None" as the link target. This cannot
  happen in a relay `Admit` decides, because a relay needs a tracked chat
  (`Monitor.RelayCarriesRealLink`). In the source it needs the channel row
  to be deleted during the `await` at main.py:438, and concurrency between
  handlers is not modelled.
- **Username uniqueness.** The schema declares `username TEXT UNIQUE`
  (main.py:52). Adding a second row with a stored username raises an
  IntegrityError, and the add returns False.

## Model

| member | source | states |
|---|---|---|
| `Text.ContainsIff` | main.py:437 | the substring scan used for `in` is true exactly when the text has an occurrence of the keyword at some position |
| `Text.ParseIntToString` | main.py:352 | `int(str(i)) == i` for every integer, so a typed numeric id is read back exactly |
| `Links.GenerateMessageLink` | main.py:60-68 | a link is produced exactly when the channel type is known, and every link starts with `https://t.me/` |
| `Links.PublicLinkRoundTrip` | main.py:61-62 | a public link `https://t.me/<username>/<id>` parses back to that username and message id |
| `Links.PrivateLinkRoundTrip` | main.py:63-66 | a private link parses back to the shortened chat id and the message id it was built from |
| `Links.PrivateLinkUsesInternalId` | main.py:64-66 | for a chat id `-100` followed by the d digits of c, the link's channel part is exactly c: dropping three characters of `abs(chat_id)` removes the "100" |
| `Links.PrivateLinkExample` | main.py:63-66 | chat -1001234567890, message 7 gives `https://t.me/c/1234567890/7` |
| `Links.PublicLinkExample` | main.py:60-62 | public channel "news", message 42 gives `https://t.me/news/42` |
| `Links.PrivateLinkId` | main.py:65 | a digit string without "/", and empty whenever `abs(chat_id) < 1000`, since dropping three characters of a numeral of at most three digits leaves nothing |
| `Text.NumeralLength` | main.py:65 | a number below `10^d` has a decimal numeral of at most d digits |
| `Links.ShortPrivateIdExample` | main.py:63-66 | chat -100, message 7 gives an empty channel part and the link `https://t.me/c//7` |
| `Links.EntityOf` | main.py:71-75 | a t.me URL becomes "@" followed by at most its remainder; any other reference passes unchanged |
| `Links.CanonicalUrl` | main.py:96-97 | the stored url always begins with `https://t.me/`; a t.me URL is kept, anything else becomes the prefix plus the reference with all leading "@" stripped |
| `Links.HandleRoundTrip` | main.py:71-97 | a bare handle stored in canonical form converts back to "@" plus the handle, so storage and lookup agree |
| `Links.ClassifyReference` | main.py:80-86 | private exactly for the `https://t.me/+` prefix; such a link is fetched as given and stored unchanged; any other reference is fetched by its entity form and is public |
| `Links.GetChannelInfo` | main.py:78-91 | a result exactly when the platform lookup of the classified key succeeds, carrying that chat and the classified type |
| `Tables.FilterKeepsDistinct` | main.py:32-54 | deleting rows never breaks a UNIQUE column |
| `Tables.IsTracked` | main.py:432 | a chat is tracked exactly when `get_channel_type` finds a type for it |
| `Tables.ChannelTypeOf` | main.py:133-139 | None exactly for an untracked chat id, else the type of a stored row with that chat id |
| `Tables.ChannelTypeOfUnique` | main.py:133-139 | with unique chat ids, the type returned is that of the one row for the chat |
| `Tables.IsUserBlacklisted` | main.py:215-218 | true exactly when a row's `user_id` equals the id, or equals the integer the text argument converts to; the username column is never consulted |
| `Tables.UsernameNeverBlacklisted` | main.py:420-422 | the username check of `on_message` never matches a name starting with a letter, whatever is stored |
| `Tables.StoredUsernameIsNotMatched` | main.py:215-218 | a row (5, "spammer") blocks id 5 but not the username "spammer" |
| `Tables.UserIdByName` | main.py:385-388 | an id found by name belongs to a row with exactly that username; when such a row exists, the result is that row's (possibly NULL) id |
| `Tables.UserIdByNameUnique` | main.py:385-388 | with unique usernames, looking up a stored username yields exactly that row's id |
| `Store.BlacklistCandidate` | main.py:151-165 | text without "@" is refused; a failed `get_users` lookup is refused; an id argument keeps that id and the user's lowercased username, or NULL when they have none; a name argument stores the lowercased name after the "@" and the id `get_users` returns, or NULL when that id is 0; stored usernames are lower case |
| `Store.Registry.constructor` | main.py:32-57 | a fresh database has three empty tables, no changes, and satisfies the constraints |
| `Store.Registry.ReadAll` | main.py:127-145 | `get_channels`/`get_keywords`/`get_blacklist` return the stored rows in storage order |
| `Store.Registry.ReadAllMeetsConstraints` | main.py:32-54 | every state the registry reaches reads back as tables that meet all five UNIQUE constraints of the schema |
| `Store.ChannelClash` | main.py:94-103 | on unique tables, `add_channel` hits an IntegrityError exactly when appending the row would break the UNIQUE chat id or url column |
| `Store.BlacklistClash` | main.py:167-181 | on unique tables, the add is refused exactly when appending the row would break the UNIQUE `user_id` or `username` column; NULLs never clash |
| `Store.Registry.AddChannel` | main.py:94-103 | on a chat id or canonical url already stored: False and nothing changes; otherwise exactly one row (chat id, canonical url, type) is appended and True |
| `Store.Registry.RemoveChannel` | main.py:106-109 | deletes exactly the rows whose url equals the argument (none for a bare handle); returns the cumulative `total_changes > 0`, true even when nothing matched if anything changed before |
| `Store.Registry.RemoveChannelIfTracked` | main.py:106-109 | the same deletion, reporting True exactly when a stored url matched |
| `Store.Registry.DeleteChannels` | main.py:107-108 | the DELETE removes exactly the matching rows, keeps the others in order and adds the number removed to `total_changes` |
| `Store.Registry.AddKeyword` | main.py:112-118 | an exact (case-sensitive) duplicate gives False and no change; otherwise one keyword appended and True |
| `Store.Registry.RemoveKeyword` | main.py:121-124 | deletes exactly the equal keyword; returns the cumulative `total_changes > 0` |
| `Store.Registry.RemoveKeywordIfPresent` | main.py:121-124 | the same deletion, reporting True exactly when the keyword was stored |
| `Store.Registry.DeleteKeywords` | main.py:122-123 | the DELETE removes exactly the equal keyword and counts it in `total_changes` |
| `Store.Registry.AddUserToBlacklist` | main.py:149-181 | False with no change when the argument is refused, the lookup fails, the id is already listed or the username is taken; otherwise the candidate row is appended and True |
| `Store.Registry.RemoveUserFromBlacklist` | main.py:184-206 | True exactly when a row carries the id (or username); those rows, and only those, are deleted; no change otherwise |
| `Store.StaleRemovalReport` | main.py:106-124 | after one successful insert, removing a never-tracked url and a never-added keyword both report success |
| `Monitor.TextToCheck` | main.py:436-437 | the text to scan is empty exactly when the message has neither a non-empty text nor a non-empty caption, so such a message never matches; a non-empty text wins over the caption |
| `Monitor.SenderIsBlacklisted` | main.py:418-427 | a message without sender is never blocked; a user or sender chat whose id is listed is blocked; only rows with a user id can block anyone |
| `Monitor.KeywordMatches` | main.py:437 | true exactly when the text is non-empty and the lowercased keyword occurs at some position of the lowercased text |
| `Monitor.Admit` | main.py:415-464 | dropped as blacklisted exactly when the sender check fires, as untracked exactly when the sender passes and the chat is not tracked; any other outcome names a stored keyword that matches; a relay needs a resolved destination and is the planned copy or send |
| `Monitor.MatchIgnoresCase` | main.py:437 | matching gives the same answer after lowercasing the keyword and the text |
| `Monitor.CaseInsensitiveExample` | main.py:437 | keyword "Sale" matches "huge SALE today" |
| `Monitor.FirstMatch` | main.py:433-437 | the index found matches and no earlier keyword does; None only when no keyword matches |
| `Monitor.PlanRelay` | main.py:442-461 | with media, a copy of the message whose caption is the caption plus the link; without media, a send of the text plus the link; always to the destination; `from_chat_id` is "@username" for public, the chat id for private, None otherwise; the appended text (`LinkSuffix`) is the fixed label, the link as Python renders it and ")" |
| `Monitor.RelayCarriesRealLink` | main.py:432-450 | every relay `Admit` decides comes from a tracked chat, so its link exists and starts with `https://t.me/`; the text "None" never becomes the link |
| `Monitor.OnMessage` | main.py:415-464 | the handler's checks and its keyword loop with `break` produce exactly the decision `Admit` specifies |
| `Monitor.BlacklistShortCircuit` | main.py:418-427 | a blacklisted sender is dropped whatever the chat and text |
| `Monitor.RelayIff` | main.py:415-464 | a relay happens exactly when the sender is not blacklisted, the chat is tracked, some keyword matches and the destination resolves |
| `Monitor.FirstMatchWins` | main.py:435-464 | the keyword acted on is the first matching one in storage order; a failed destination lookup still ends the scan |
| `Monitor.AlphaBetaExample` | main.py:435-464 | keywords ["alpha", "beta"] and a message with both give one relay, for "alpha" |
| `Monitor.PrivateRelayLinksBack` | main.py:442-450 | the link in a relay from a tracked private channel parses back to that chat and message |
| `Commands.OnAddChannel` | main.py:249-264 | an unresolved reference or a preview adds nothing; otherwise the outcome and the new table are those of `add_channel` with the resolved id and type; `total_changes` grows by one exactly when the channel was added |
| `Commands.ParseBlacklistArgument` | main.py:348-357 | "@…" is a username, anything else an id exactly when `int()` accepts it |
| `Commands.NumericArgumentRoundTrip` | main.py:351-353 | the numeral of any integer is accepted as that id |
| `Commands.OnAddToBlacklist` | main.py:348-362 | an invalid identifier changes nothing; otherwise the reply and table are those of `add_user_to_blacklist`; `total_changes` grows by one exactly when a row was added |
| `Commands.RemovalTarget` | main.py:377-388 | a digit string (after stripping "@") is that id; anything else yields only the id of a row with exactly that username |
| `Commands.NumericRemovalTarget` | main.py:377-383 | `n` and `@n` both resolve to id n |
| `Commands.MixedCaseNameNotFound` | main.py:377-388 | because stored usernames are lowercased, a name typed with upper-case letters is never found |
| `Commands.StoredNameFindsRow` | main.py:377-388 | "@" plus a stored username resolves to that row's id |
| `Commands.OnRemoveFromBlacklist` | main.py:377-396 | no target: no change; otherwise removal by that id, reporting success exactly when a row had it; `total_changes` grows by the number of rows deleted |

## Left out

- Network I/O: the pyrogram clients and the calls `get_chat`, `get_users`,
  `copy_message`, `send_message` and `message.reply`. Lookups are inputs.
  Relays are returned as values. A failed copy or send is logged and
  swallowed by the source, so it changes no modelled state.
- Startup plumbing: configuration, logging, the `create_tables` DDL,
  `start_handler` and the `__main__` start/idle/stop sequence. The
  constructor models an empty database only; a database that persists
  across restarts is any `Valid()` state.
- Command-text plumbing: reply wording, and the `split(maxsplit=1)`/`strip`
  argument extraction with its empty-argument replies. The handlers
  `/remove_channel`, `/remove_keyword`, `/add_keyword` and `/list_*` only
  forward to a registry method, so they are not modelled separately.
- Async scheduling and concurrency between handlers.
- The INTEGER PRIMARY KEY column: only storage order is kept.
- Integer width: ids are unbounded; SQLite's 64-bit limit, and the
  OverflowError beyond it, are not modelled.
- `Text.Lower`: ASCII letters only, because Unicode case mapping is not
  modelled.
- `Text.IsDigits`: ASCII digits only, because Unicode digit classes are not
  modelled.
- `Text.ParseInt`: a sign and ASCII digits only; `int()`'s underscores and
  Unicode digits are not modelled.
- `Tables.TextAsUserId`: SQLite's numeric conversion of a text parameter is
  modelled only for a sign and digits; forms such as "5.0" or padded
  numbers are not.
- The channel `type` column holds only the two values the bot writes
  (`ChannelKind`). Other strings would have no link and no `from_chat_id`,
  like None.
- A destination reference that resolves only to a preview has no `.id`.
  The source then raises, and its outer handler catches the exception. The
  model folds this into a destination of None: no relay happens.

## Findings

| source | as written | input that shows it | evidently intended | confidence | as-written member | corrected member |
|---|---|---|---|---|---|---|
| main.py:106-109 | `remove_channel` returns `conn.total_changes > 0`, which counts every change since the connection opened | `add_keyword("sale")` succeeds, then `remove_channel("https://t.me/never_added")` deletes nothing and returns True ("channel removed") | True only when this call deleted a row | not executed | `Store.StaleRemovalReport` | `Store.Registry.RemoveChannelIfTracked` |
| main.py:121-124 | `remove_keyword` returns the same cumulative `conn.total_changes > 0` | `add_keyword("sale")` succeeds, then `remove_keyword("absent")` deletes nothing and returns True | True only when this call deleted the keyword | not executed | `Store.StaleRemovalReport` | `Store.Registry.RemoveKeywordIfPresent` |
