# Moderation bot for Telegram groups, modelled in Dafny

The bot polices group chats. It deletes a message that carries a link or a
mention, or that contains a forbidden word from a list kept in the database.
It then gives the sender a warning, stored in the `users` table. The third
warning gets the sender banned. Administrators are never moderated.

Administrators also have commands:
- `/reload`, in a private chat with the bot, reloads the forbidden-word cache.
- `/event <title>`, in a group, opens a poll.
- `/unwarn`, as a reply in a group, takes one warning off the replied-to user.

The bot deletes the service message for joining members and welcomes each
human member. Its settings come from the environment and are validated at
start-up.

The project has these modules:

- `Wrappers` holds `Option` and `Result`.
- `Text` holds the Python string built-ins the code relies on: `str.isspace`
  (used both by `strip` and by the regular-expression class `\s`), `strip`,
  `split(",")`, `lower`, `replace(p, "")`, substring `in`, a decimal `int()` and
  `str()` of an integer.
- `Telegram` holds the update types: a user, a message and the message it
  replies to.
- `Config` models config.py: the field validators, the defaults and the loading
  of all fields together.
- `Filters` models filters.py. The administrator list comes from a `get_admins`
  helper that config.py does not define, so it is a parameter here: the set of
  administrator ids.
- `Store` models db_client.py. The two tables are in-memory values: `users` is a
  map from user id to a row with nullable columns, and `bad_words` is a list of
  rows. The operations come twice: as pure table transitions (`AddWarningOutcome`,
  `RemoveWarningOutcome`, `MergeProfile`), and as the methods of class
  `Database`, which update its `users` field and are proved equal to those
  transitions.
- `Detector` holds the decisions of main.py that have no side effects: the
  link pattern, the word check, which rule wins, the `/event` title and the
  `/unwarn` guards.
- `Bot` models the handlers of main.py. Class `Moderator` holds the global word
  cache, the database client and a trace of what the bot did in chats (message
  deleted, member banned, message sent). Each handler first applies the filters
  it is registered with. `apply_sanction` is also given as a pure function,
  `Sanction`, and the lemmas about repeated violations are stated on it.

Every store call has a boolean parameter saying whether it succeeds. So do
the Telegram calls inside `apply_sanction` (delete, ban, send) and the
deletion of the join message. For each of these the model follows the
source's failure path: the fallback value, the swallowed exception, or the
early exit. The other sends (the command answers, the poll and the welcomes)
are taken to succeed; see "## Left out".

The model follows the code even where its comments, or a reader, would expect
something else:
- A forbidden word matches as a substring of the lower-cased text, not as a
  whole word.
- The cached words themselves are not lower-cased.
- The ban threshold is the literal 3 in `apply_sanction`, not `MAX_WARNINGS`.
- The counter is not reset after a ban.
- A failed fetch in a reload empties the cache, because `get_bad_words` returns
  `[]` and the reload stores it.
- A failed deletion cancels the whole sanction: no warning and no ban.

## Model

| member | source | states |
|---|---|---|
| Text.IsSpace | main.py:146 | the characters `\s` matches and `strip` removes: Python's `str.isspace` set, written out |
| Text.Strip | config.py:28 | the result is empty exactly when the input is all whitespace, and otherwise has non-whitespace ends; it is never longer than the input; an input that is empty or already has non-whitespace ends is unchanged |
| Text.StripCutsWhitespaceEnds | config.py:28 | the result of `strip` is a slice `s[lo..hi]` of the input with only whitespace before `lo` and after `hi` |
| Text.Split | config.py:28 | `split` on one separator character gives at least one piece, no piece holds the separator, and joining the pieces with the separator gives back the input |
| Text.SplitJoin | config.py:28 | splitting a join of separator-free pieces gives back exactly those pieces |
| Text.ToLower | main.py:143 | same length; no ASCII capital and no Cyrillic capital in U+0400–U+042F is left; every other character is kept |
| Text.IsSubstring | main.py:152 | Python's `w in t`: `w` occurs in `t` at some position; the empty word occurs in every text |
| Text.RemoveAll | main.py:57 | `replace(p, "")` never lengthens the text, and leaves a text without `p` unchanged |
| Text.RemoveAllPrefix | main.py:57 | cutting `p` out of `p + s`, where `s` holds no `p`, leaves exactly `s` |
| Text.ParseInt | config.py:28 | `int()` of a stripped piece: an optional sign and ASCII digits; anything else is not an integer |
| Text.ParseDecimalString | config.py:28 | `int(str(n)) == n` for every integer, negative ones included; `str` is the one of db_client.py:32 |
| Text.NatDigits | db_client.py:32 | the decimal digits of a natural number: at least one digit, no leading zero, and `"0"` for 0 |
| Text.DecimalString | db_client.py:32 | `str(n)` is non-empty, made of digits after an optional leading minus, starts with a digit exactly when `n >= 0`, and has no leading zero unless it is `"0"` |
| Config.ValidateBotToken | config.py:16-21 | the token is accepted, unchanged, exactly when it has at least 20 characters; otherwise the error is the bot-token error |
| Config.NonBlank | config.py:28 | every piece the comprehension keeps is non-empty and stripped at its start |
| Config.NonBlankEmptyIff | config.py:28-30 | nothing is kept exactly when every piece is blank |
| Config.NonBlankSingle | config.py:28 | one piece is kept, stripped, exactly when it is not blank |
| Config.NonBlankAppend | config.py:28 | the comprehension works piece by piece and keeps the order: keeping from `a + b` gives what is kept from `a` followed by what is kept from `b` |
| Config.ParseAll | config.py:28 | the kept pieces parsed in order: on success one integer per piece, each the parse of its piece; on failure the error names a piece that is not an integer |
| Config.ParsePieces | config.py:28 | on success one integer per kept piece, in order, each the parse of its piece; on failure a kept piece that is not an integer |
| Config.ParsePiecesOkIff | config.py:28 | the pieces parse exactly when every kept piece is an integer |
| Config.ParseAdminIds | config.py:23-34 | a non-string value passes unchanged; an accepted string gives a non-empty list whose ids are the integer values of the kept pieces, in order; a refusal for a non-integer names a kept piece that is not an integer; every refusal is an admin-ids error |
| Config.AdminIdsRoundTrip | config.py:25-31 | a non-empty list of ids written comma-separated parses back to the same list |
| Config.BlankAdminIdsRejected | config.py:28-30 | a string of only whitespace and commas is refused as an empty list |
| Config.NonBlankPieceNotEmptyList | config.py:28-30 | a string with a piece that is not blank is never refused as an empty list |
| Config.NonIntegerAdminIdRejected | config.py:27-33 | a string with a kept piece that is not an integer is refused, and the refusal names such a piece |
| Config.EmptyPieceSkipped | config.py:28 | `"1,,2"` parses to `[1, 2]`: the empty piece is skipped |
| Config.ValidateMaxWarnings | config.py:36-41 | the threshold is accepted, unchanged, exactly when it is at least 1 |
| Config.Printed | config.py:28 | each id printed in decimal, in order |
| Config.ParsePrintedIds | config.py:28 | the printed ids, stripped and parsed, give back the ids |
| Config.LoadSettings | config.py:10-14 | the settings load exactly when the token is valid, the URL and key are present, and the ids and the threshold, when given, are valid; the token, URL and key are kept as given; an absent list of ids defaults to `[]` and an absent threshold to 3; a failed load reports at least one error |
| Filters.IsAdmin | filters.py:6-12 | the sender's id is an administrator id; a message without a sender never passes |
| Filters.IsGroupChat | filters.py:15-19 | the chat type is `group` or `supergroup` |
| Filters.IsPrivateChat | filters.py:22-26 | a private chat is never a group chat |
| Filters.IsProtectedAdmin | filters.py:29-37 | it raises (None) exactly on a message without a sender; it passes only for an administrator in a private chat, and for every such sender |
| Store.ReadCount | db_client.py:40-57 | the stored counter; 0 for a failed read, a missing row or a null counter; never negative while the table keeps its invariant |
| Store.WithCount | db_client.py:66-68 | the upsert stores the counter, creates a missing row with null columns, keeps the row's other columns and leaves other users alone |
| Store.AddWarningOutcome | db_client.py:59-72 | a successful write stores and returns one more than the read value, keeps the rest of the row and the other users; a failed write leaves the table alone and returns the read value; a failed read with a successful write gives 1; counters stay non-negative |
| Store.RemoveWarningOutcome | db_client.py:74-89 | a successful write returns max(0, read - 1), 0 when the read was at most 1, updates only an existing row and leaves an unknown user without a row; a failed write returns the read value and changes nothing; counters stay non-negative |
| Store.ProfileRecord | db_client.py:22-32 | the record keeps the id and username and carries the time of the call; a missing or empty name becomes `User_<id>`, so the stored name is never empty |
| Store.MergeProfile | db_client.py:35 | the user's row gets the record's username, name and time; no counter of any user changes; other users are untouched |
| Store.Words | db_client.py:96 | the `word` column of the rows, in row order |
| Store.Database.constructor | db_client.py:17-19 | a client over the given tables |
| Store.Database.UpsertUser | db_client.py:22-37 | a successful write merges the profile record; a failed write is swallowed and changes nothing; the word list is untouched |
| Store.Database.AddWarning | db_client.py:59-72 | the new table and the returned count are those of `AddWarningOutcome` |
| Store.Database.RemoveWarning | db_client.py:74-89 | the new table and the returned count are those of `RemoveWarningOutcome` |
| Store.Database.GetBadWords | db_client.py:92-99 | the stored words in row order, or `[]` when the fetch fails |
| Detector.SearchLink | main.py:146-147 | the search succeeds exactly when there is a position where `http://`, `https://`, `t.me/` or `@` starts and is followed by a non-whitespace character |
| Detector.LinkAt | main.py:146 | the pattern matches at a position: `http://`, `https://`, `t.me/` or `@` starts there and a non-whitespace character follows it |
| Detector.ContainsLink | main.py:147 | `re.search` of the pattern from the start of the text |
| Detector.TrailingAtIsNoLink | main.py:146 | a lone `@` at the very end is no mention |
| Detector.MentionIsLink | main.py:146-147 | `@spam` is a link |
| Detector.ContainsForbiddenWord | main.py:152 | `any(word in text ...)`: some cached word occurs in the text |
| Detector.SubstringNotWholeWord | main.py:152 | the word `class` fires on `classic`: substring, not whole word |
| Detector.EmptyWordFiresEverywhere | main.py:152 | an empty word in the cache fires on every text |
| Detector.CapitalisedWordNeverFires | main.py:143-152 | a cached word with a capital letter never matches the lower-cased text |
| Detector.Classify | main.py:143-154 | a link in the lower-cased text is always the ads rule; otherwise the word rule fires exactly when some cached word occurs; the text is clean exactly when neither holds |
| Detector.ReasonText | main.py:148-153 | the reason string of each rule, as passed to `apply_sanction`: a sentence ending in a full stop |
| Detector.ReasonTextTellsRulesApart | main.py:148-153 | the two rules' reason strings are equal only for the same rule, so a notice names which rule fired |
| Detector.ToLowerIdempotent | main.py:143 | lower-casing twice is lower-casing once |
| Detector.ClassifyIgnoresCase | main.py:143 | the verdict does not depend on letter case |
| Detector.LinkBeatsWord | main.py:145-154 | a text that both links and holds a forbidden word is judged for the link |
| Detector.EventTitle | main.py:57-60 | there is no title exactly when only whitespace is left after removing every `/event`; a title is non-empty with non-whitespace ends; a text without `/event` gives its own strip |
| Detector.EventTitleOfCommand | main.py:54-60 | for a command text `/event` + `s` where `s` holds no further `/event`, the title is `s` stripped, or none when `s` is all whitespace |
| Detector.EventTitleExample | main.py:57 | `/event Cinema` has the title `Cinema` |
| Detector.BareEventHasNoTitle | main.py:57-60 | the bare command has no title |
| Detector.ReplyTarget | main.py:74-75 | the sender of the replied-to message, when there is a reply and it has a sender |
| Detector.CheckUnwarn | main.py:72-92 | the guards in order: no reply target; the target is an administrator; the target is a bot; only past all three does the command go ahead, on the replied-to user |
| Bot.Sanction | main.py:103-134 | nothing for an administrator, for a message without a sender, or when the deletion fails; otherwise the table is that of `add_warning` and the deletion comes first; all effects are in the message's chat; counters stay non-negative |
| Bot.SanctionEffects | main.py:111-130 | past the deletion, the effects are, in order and with nothing else: the deletion; the ban, exactly when the count is at least 3 and the ban call succeeds; then the ban notice, exactly when it is also sent; or else the warning notice `count/3`, exactly when the count is below 3 and it is sent |
| Bot.Moderate | main.py:137-154 | no effect on a message without text, outside a group, or from an administrator; otherwise a clean text has no effect and a violation gets exactly one sanction, for its first rule |
| Bot.LinkAndWordSanctionedOnceForLink | main.py:145-154 | a message that breaks both rules is sanctioned once, for the link, and deleted once |
| Bot.RepeatedViolationsCount | main.py:113 | without failures, `n` violations in a row raise the stored counter by exactly `n`, with no reset |
| Bot.ViolationBansIff | main.py:113-123 | without failures, a violation bans exactly when the starting counter plus the number of violations so far reaches 3, so every violation after a ban bans again |
| Bot.ThirdViolationBansNewUser | main.py:115-117 | a user without a record is not banned for the first or second violation and is banned for the third |
| Bot.Greeted | main.py:170-173 | the greeted members are at most the joining members |
| Bot.Greetable | main.py:172 | a joining member is greeted unless it is the bot itself or another bot |
| Bot.GreetedAppend | main.py:170-173 | greeting works member by member: the greeted of `a + b` are the greeted of `a` followed by those of `b`, so the join order is kept |
| Bot.GreetedMembers | main.py:170-173 | a user is greeted exactly when they joined and are neither the bot itself nor another bot |
| Bot.Welcomes | main.py:175-181 | one welcome message per greeted member, in order, each naming that member |
| Bot.Moderator.constructor | main.py:26 | the bot starts with an empty word cache and has done nothing yet |
| Bot.Moderator.ReloadBadWordsCache | main.py:29-39 | the cache becomes exactly the fetched words; a failed fetch empties it |
| Bot.Moderator.CmdReload | main.py:45-51 | only for an administrator in a private chat: reload, then report the size of the new cache; otherwise nothing changes |
| Bot.Moderator.CmdCreateEvent | main.py:54-66 | only for an administrator in a group: a poll with the title, or the usage hint when there is no title |
| Bot.Moderator.CmdUnwarn | main.py:69-97 | only for an administrator in a group: each guard that stops the command answers and leaves the table alone; past the guards the table and the reported count are those of `remove_warning` on the target |
| Bot.Moderator.ApplySanction | main.py:103-134 | the table and the effects appended to the trace are those of `Sanction` |
| Bot.Moderator.ModerationHandler | main.py:137-154 | the table and the effects appended to the trace are those of `Moderate` on the current cache |
| Bot.Moderator.OnNewChatMembers | main.py:160-181 | nothing for an empty join list; otherwise the deletion, if it succeeds, then one welcome per human member, in order |
| Bot.Moderator.WelcomeAll | main.py:170-181 | the loop appends exactly the welcomes of the greeted members |

## Left out

- Routing of updates by the dispatcher (first matching handler wins) and the parsing of `Command(...)` are not modelled. Each handler checks only its own filters.
- The activity middleware in middlewares.py, which calls `upsert_user` before every handler, is not modelled apart from `Store.Database.UpsertUser` itself.
- The database service, HTTP, the Telegram API and polling are not modelled. Each call is an in-memory update whose success is a parameter.
- Concurrency is not modelled. Each handler runs to completion on its own, so the lost update when two `add_warning` calls overlap is not captured.
- Clock and logging: the time `upsert_user` records is a parameter, and log output is dropped.
- The wording of the bot's messages and poll options is not modelled. A notice records only the facts it carries: the name, the rule, the count and the title.
- Failed sends are modelled only inside `apply_sanction`, where the source's `try` catches them. Elsewhere an exception from a send ends the handler after its last effect, and the model treats those sends as successful.
- The `except` in `reload_bad_words_cache` is not modelled, because `get_bad_words` never raises.
- Removing a warning from a user who has no row returns 0 without adding a row. This is what the update-only query does.
- Text.ToLower: lower-cases only the ASCII capitals and the Cyrillic capitals U+0400–U+042F. Python's `str.lower` also lowers every other capital Unicode knows, for example Ґ U+0490, Ѣ U+0462 and the Latin capitals with accents.
- Text.ParseInt: accepts only an optional sign followed by ASCII digits. Underscores, other Unicode digits and surrounding whitespace are not accepted, although Python's `int()` accepts them; the callers strip first.
- Config.LoadSettings: does not check that the database URL is a valid HTTP URL, and keeps the URL exactly as given; pydantic's `HttpUrl` normalisation (such as the trailing `/` it adds to a bare host, config.py:11) is not modelled. It does not model reading the `.env` file or pydantic's JSON decoding of a list value given in the environment.
- Config.ParseAdminIds: a list value that is not a string element by element is taken as already-typed integers. Pydantic's later coercion of such a list is not modelled.
- The rows returned by `get_bad_words` are taken to hold strings; other JSON values are not modelled.
