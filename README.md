# pishock-SB: a Dafny model of the bot's decision layer

The self-bot relays chat messages to a PiShock device: a sender on the
whitelist whose message contains a listed trigger word is supposed to set off a
shock, and commands manage the word list, the device credentials and the
account's presence. A small settings window writes the configuration files the
bot reads. This project models the logic between the transport and the device:

- `shock.dfy` (module `ShockCog`): the `Shocker` cog as a class holding the
  environment, the `.env` lines, the two JSON files, the credentials read when
  the cog is built, the "API initialised" flag and a trace of every reply,
  device call and escaping exception. Each method is proved against a pure
  function of the old state. Those functions carry the message gate, the
  parameter checks, the guards of the device call and the word-list edits.
- `misc.dfy` (module `MiscCog`): the `status`, `banner`, `pfp` and `shutdown`
  handlers as functions from the message text to the actions they perform, in
  order. `MiscExamples` holds worked examples.
- `gui.dfy` (module `Gui`): the settings window as a class over its six entry
  fields, `.env`, the two JSON files, its two labels and a record of file writes
  and message boxes. The pure parts are functions with proved properties: the
  required-field check, the comma-list parsing, the joins of autofill, the
  uptime arithmetic and the backwards scan of the log.
- `store.dfy` (module `Store`): the JSON documents and the two `load_json` variants.
- `pytext.dfy` (module `PyText`): the Python string operations the code relies on.
  These are `split()`, `split(",")`, `strip()`, `lower()`, `join`, substring
  `in`, `int()` and `str()`, stated with Python's semantics. For example,
  `"".split(",") == [""]`.
- `replies.dfy` and `wrappers.dfy`: the fenced reply format and `Option`/`Result`.

Several behaviours of the code are reproduced as written and proved:

- The check `[0] not in wordlist.get("words", [])` compares a list with string
  entries, so it holds for every word list that loads. As a result the trigger
  path returns before it validates anything: `OnMessageNeverActs`.
- `send_shock` checks the intensity but not the duration.
- `send_shock` reports success even when the shock code is unset.
- The "Status cannot be empty" branch of `status` cannot be reached.
- An empty whitelist field always makes a save fail.
- The window saves the Discord token under `TOKEN`, while the launcher
  (main.py:70) reads `DISCORD_TOKEN`. This is recorded as a comment on `Gui.EnvLines`.

`shock_message` applies `len` and indexing to a message object. The model
takes the whitespace tokens of the message instead, which is the input the
format error text describes. The handlers of `misc.py` read `ctx.content`
(cogs/misc.py:16, 77, 100). The model assumes that this is the text of the invoking
message and takes that text as a parameter. discord.py is not part of this model.

## Model

| member | source | states |
|---|---|---|
| Store.LoadJson | cogs/shock.py:35-44 | the parsed object when the file parses; `None` exactly when it is missing or malformed |
| Store.LoadJsonOrEmpty | gui.py:15-24 | the parsed object when the file parses, `{}` when it is missing or malformed |
| Store.LoadersAgree | gui.py:15-24 | the window's loader is the bot's loader with `None` replaced by `{}`; where the bot's gives `None`, the window's result is falsy |
| PyText.SplitWs | cogs/misc.py:16 | `split()` yields only non-empty tokens without whitespace |
| PyText.SplitWsJoin | cogs/misc.py:16 | splitting a single-space join of such tokens gives the tokens back |
| PyText.Join | cogs/misc.py:25 | `sep.join([])` is `""`, and a join whose first part is non-empty is non-empty |
| PyText.JoinContainsParts | cogs/misc.py:25 | every part occurs as a substring of the join, so the join is at least as long as each part |
| PyText.JoinEnds | cogs/misc.py:25 | a join of a non-empty list begins with its first part and ends with its last |
| PyText.Lower | cogs/shock.py:63 | `lower()` keeps the length and maps each character |
| PyText.LowerHasNoUpper | cogs/shock.py:63 | a lower-cased string holds no upper-case ASCII letter |
| PyText.SplitOn | gui.py:100 | `split(",")` yields at least one piece, and no piece holds the separator |
| PyText.SplitOnEmpty | gui.py:100 | `"".split(",")` is `[""]` |
| PyText.SplitOnCommaJoin | gui.py:181 | splitting a `", "`-join on `,` gives the first part and then `" " + part` for each remaining part |
| PyText.Strip | gui.py:100-104 | the result of `strip()` is no longer than its input and has no surrounding whitespace |
| PyText.StripRemovesOnlySpace | gui.py:100-104 | `strip()` takes off whitespace only: the input is whitespace, the result, and whitespace |
| PyText.Contains | cogs/shock.py:63 | `needle in hay`: the empty string is in every string, a longer needle is in no string, and for equal lengths it holds exactly when the two are equal |
| PyText.ParseInt | gui.py:100 | an accepted literal is non-empty after stripping and ends in a digit, and a negative value comes from a leading minus sign |
| PyText.IntToString | gui.py:212 | `str(n)` is non-empty, starts with a minus sign exactly when `n` is negative, and is digits after that |
| PyText.StripAfterSpace | gui.py:181 | stripping removes the space that the `", "` separator leaves in front of a stripped piece |
| PyText.NatToStringValue | gui.py:181 | `str(n)` of a natural number is a digit group whose value is `n` |
| PyText.ParseIntToString | gui.py:100 | `int(str(n)) == n` for every integer |
| PyText.IntToStringShape | gui.py:181 | `str(n)` holds no comma and no surrounding whitespace |
| ShockCog.Getenv | cogs/shock.py:16-18 | `os.getenv(key)` is present exactly when the key is set, and then it is the key's value |
| ShockCog.ShockerReport | cogs/shock.py:110-124 | the single error exactly when one of the three values is unset or empty, otherwise all three values |
| ShockCog.ShockerReportShowsAllOrNothing | cogs/shock.py:116-120 | with any value unset the reply does not depend on the environment, so no partial configuration is shown |
| ShockCog.WhitelistOf | cogs/shock.py:54-55 | a missing or malformed whitelist file gives the empty list |
| ShockCog.TriggerWords | cogs/shock.py:59-63 | words exactly when the word list loads as a non-empty object; they are its "words" entry, or none when it has no such key |
| ShockCog.AnyWordIn | cogs/shock.py:63 | `any(word in content.lower() ...)` is false for no words and true whenever the empty word is listed |
| ShockCog.Triggered | cogs/shock.py:54-63 | the gate passes only when both files load and the word list holds at least one word |
| ShockCog.NotWhitelistedNeverTriggers | cogs/shock.py:54-57 | a sender not on the whitelist never passes the gate |
| ShockCog.UnreadableWhitelistRejectsAll | cogs/shock.py:35-57 | a missing or malformed whitelist file rejects every sender |
| ShockCog.NoWordsNeverTriggers | cogs/shock.py:59-63 | a missing, malformed, empty or word-less word list triggers on nothing |
| ShockCog.TriggerIffWordOccurs | cogs/shock.py:63 | a whitelisted sender triggers if and only if some listed word is a substring of the lower-cased message |
| ShockCog.UpperCaseWordNeverMatches | cogs/shock.py:63 | words are not lower-cased, so a listed word with an upper-case letter never matches |
| ShockCog.EmptyWordMatchesEverything | cogs/shock.py:63 | an empty listed word matches every message of a whitelisted sender |
| ShockCog.ParseShockRequest | cogs/shock.py:79-82 | a request exactly when both tokens parse as integers, the shock value in [1,100] and the duration in [1,15]; it carries those values |
| ShockCog.SendShockEvents | cogs/shock.py:165-186 | the device is called if and only if the API is up, the intensity is in [1,100] and the code is set; at most one call, first, with the duration unchecked; every path ends in a reply; an uninitialised API gives only the "not initialized" error, an intensity out of range only the intensity error, and a delivered shock the call followed by the success line |
| ShockCog.DurationIsNotChecked | cogs/shock.py:159-179 | a duration out of range, as in `test 20 50`, still reaches the device |
| ShockCog.UnsetCodeStillReportsSent | cogs/shock.py:176-184 | with the code unset, the "code is not set" error is followed by the success line, and no device call is made |
| ShockCog.FaultIsReportedOnce | cogs/shock.py:175-186 | a device exception gives one call and exactly one `Error: <cause>` reply, with no retry |
| ShockCog.ShockMessageEvents | cogs/shock.py:66-89 | nothing happens when a non-empty word list loads; otherwise fewer than three tokens give exactly the format error, values that do not parse or are out of range give exactly the range error, and a valid request is handed to `send_shock` as (duration, shock); the device is reached only with both values parsed and in range |
| ShockCog.InvalidParametersAreRejected | cogs/shock.py:79-89 | a value that is not an integer or is out of range gives the range error alone |
| ShockCog.OnMessageEvents | cogs/shock.py:50-64 | a message that does not pass the gate produces nothing |
| ShockCog.OnMessageNeverActs | cogs/shock.py:59-71 | a message that passes the gate still produces nothing, because `shock_message` returns at once on the same word list |
| ShockCog.EditableDoc | cogs/shock.py:134 | `load_json(...) or {"words": []}` is always a non-empty object |
| ShockCog.RemoveFirst | cogs/shock.py:154 | `list.remove` takes away one occurrence and keeps every other element |
| ShockCog.RemoveFirstIsFirstOccurrence | cogs/shock.py:154 | the occurrence taken away is the first one, and the words before and after it keep their order |
| ShockCog.RemoveKeepsNoDuplicates | cogs/shock.py:154 | removing from a duplicate-free list keeps it so, and the word is then gone |
| ShockCog.RemoveAppended | cogs/shock.py:139-154 | removing a word just appended to a list without it gives the list back |
| ShockCog.AddWordStep | cogs/shock.py:132-142 | a `KeyError` when the object has no "words"; a listed word gives the "already in the list" reply and leaves the file unchanged; otherwise the word is appended at the end, every other key is kept and the reply is "added"; the list stays duplicate-free |
| ShockCog.RemoveWordStep | cogs/shock.py:144-157 | a `KeyError` when the object has no "words"; an absent word gives the error and leaves the file unchanged; a listed word is taken out by `RemoveFirst`, every other key is kept and the reply is "removed"; a duplicate-free list stays so and loses the word |
| ShockCog.AddListedWord | cogs/shock.py:134-137 | `add` of a listed word replies "already in the list" and writes nothing |
| ShockCog.AddTwice | cogs/shock.py:132-142 | a second `add` of the same word changes nothing |
| ShockCog.AddThenRemove | cogs/shock.py:132-157 | `add` of an absent word and then `remove_word` restores the edited object, and the exact file when it held a non-empty object |
| ShockCog.Shocker.constructor | cogs/shock.py:13-19 | the credentials are read from the environment and the API is not initialised |
| ShockCog.Shocker.InitShocker | cogs/shock.py:21-26 | the API is initialised exactly when all three credentials are set |
| ShockCog.Shocker.OnMessage | cogs/shock.py:50-64 | it goes on to `shock_message` exactly when the gate passes; the trace grows by `OnMessageEvents` |
| ShockCog.Shocker.ShockMessage | cogs/shock.py:66-89 | the trace grows by `ShockMessageEvents` |
| ShockCog.Shocker.SendShock | cogs/shock.py:165-186 | the trace grows by `SendShockEvents` |
| ShockCog.Shocker.Test | cogs/shock.py:159-163 | `test` goes straight to `send_shock`, skipping the gate |
| ShockCog.Shocker.SetShocker | cogs/shock.py:91-100 | the environment gets both keys, `.env` gets two appended lines and one reply is sent; the cog's own credentials and the API flag are unchanged |
| ShockCog.Shocker.SetUsername | cogs/shock.py:102-108 | the same for the username |
| ShockCog.Shocker.ShowShocker | cogs/shock.py:110-124 | replies with `ShockerReport` of the current environment |
| ShockCog.Shocker.AddWord | cogs/shock.py:132-142 | the file and the trace follow `AddWordStep` |
| ShockCog.Shocker.RemoveWord | cogs/shock.py:144-157 | the file and the trace follow `RemoveWordStep` |
| MiscCog.SetStatus | cogs/misc.py:12-72 | exactly one reply, and it comes last; the empty-status error is never sent |
| MiscCog.StatusChangesPresenceIff | cogs/misc.py:16-64 | the presence changes if and only if there are at least three tokens and the type token is an integer in 1-4 |
| MiscCog.StatusNeedsThreeTokens | cogs/misc.py:16-21 | fewer than three tokens give the format error alone |
| MiscCog.StatusTypeMustBeNumber | cogs/misc.py:69-72 | a type token that is not an integer gives "Type must be a number" alone |
| MiscCog.StatusTypeOutOfRange | cogs/misc.py:65-68 | an integer outside 1-4 gives the list of valid types alone |
| MiscCog.StatusSetsPresence | cogs/misc.py:25-64 | types 1-4 set Game, Streaming, Listening and Watching; the text is the remaining tokens joined by single spaces; Streaming uses the fixed URL; the reply names the kind |
| MiscCog.Unmention | cogs/misc.py:87-88 | `<@X>` is unwrapped to `X`, and only a token of that shape is |
| MiscCog.UnmentionWrapped | cogs/misc.py:87-88 | wrapping any text as a mention and unwrapping it gives the text back, for example `<@!5>` gives `!5` |
| MiscCog.ShowAsset | cogs/misc.py:74-118 | at most one fetch, happening first, of the unwrapped mention; at most one reply, sent last; a link is the fetched user's URL for this asset, and the "not set" error comes only for the same asset when the fetched user has none |
| MiscCog.ShowBanner | cogs/misc.py:74-95 | a link is the fetched user's banner URL, and the avatar error is never sent |
| MiscCog.ShowAvatar | cogs/misc.py:97-118 | a link is the fetched user's avatar URL, and the banner error is never sent |
| MiscCog.ShowAssetNeedsUser | cogs/misc.py:79-83 | fewer than two tokens give the "provide a valid user" error |
| MiscCog.ShowAssetIgnoresNonMention | cogs/misc.py:87-90 | a token that is not a mention causes no fetch and no reply |
| MiscCog.ShowAssetOfMention | cogs/misc.py:87-95 | a mention fetches the user, then sends the URL, or the "does not have ... set" error when there is none |
| MiscCog.Shutdown | cogs/misc.py:128-131 | the acknowledgement is sent before the client is closed |
| MiscExamples.SplitStatusExample | cogs/misc.py:16 | `>status 2 hello world` splits into four tokens |
| MiscExamples.StatusStreamingExample | cogs/misc.py:38-46 | type 2 sets streaming with the remaining words joined, and the reply says "streaming" |
| MiscExamples.StatusInvalidTypeExample | cogs/misc.py:65-68 | type 9 lists the valid types and changes nothing |
| Gui.Complete | gui.py:151-158 | true if and only if the API key, username, shock code and token fields are all non-empty |
| Gui.ListsAreNotRequired | gui.py:151-158 | the two list fields do not affect the check |
| Gui.ParseAll | gui.py:99-101 | a comprehension whose element may raise succeeds if and only if every piece parses, and then yields each piece's value |
| Gui.ParseAllFirstFailure | gui.py:99-101 | a failed comprehension reports the first failing piece |
| Gui.ParseId | gui.py:100 | `int(p.strip())`, or the rejected stripped piece |
| Gui.ParseWhitelist | gui.py:98-102 | a parsed whitelist has one id per comma-separated piece, so at least one; a rejected field reports a stripped piece that `int()` does not accept |
| Gui.StripAll | gui.py:104 | each piece stripped, nothing added or dropped |
| Gui.ParseWords | gui.py:103-105 | the word list always has at least one word |
| Gui.ParseWordsAreClean | gui.py:104 | every saved word is stripped and free of commas |
| Gui.StripKeepsOut | gui.py:104 | `strip()` adds no character |
| Gui.EmptyWhitelistFails | gui.py:98-102 | an empty whitelist field aborts the save, because `""` is not an integer |
| Gui.EmptyWordsGiveOneEmptyWord | gui.py:103-105 | an empty word field gives one empty word |
| Gui.IdStrings | gui.py:181 | `str` of each id, in order |
| Gui.JoinIds | gui.py:181 | the autofilled whitelist text is empty exactly when the saved whitelist is empty |
| Gui.StripSplitJoin | gui.py:179-184 | splitting and stripping a `", "`-join gives back parts that have no comma and no surrounding whitespace |
| Gui.WhitelistRoundTrip | gui.py:179-182 | a non-empty id list joined by autofill parses back to the same ids |
| Gui.WordsRoundTrip | gui.py:183-184 | a non-empty word list of clean words joined by autofill parses back to the same words |
| Gui.EmptyWhitelistCannotBeSavedBack | gui.py:179-182 | an empty saved whitelist autofills to an empty field, and the next save of that field fails |
| Gui.EnvLines | gui.py:92-96 | four lines with keys `SHOCKER_APIKEY`, `SHOCKER_USERNAME`, `SHOCKER_CODE`, `TOKEN`, in that order, holding the API key, username, shock code and token fields |
| Gui.SaveOrder | gui.py:92-113 | `.env` is written first; a failed whitelist parse gives exactly one error and writes no JSON file; otherwise the whitelist file, then the word file, then the success box |
| Gui.SaveEffects | gui.py:84-113 | `.env` with the fields is always written, before anything else |
| Gui.FilesAfter | gui.py:98-108 | both JSON files are replaced when the whitelist parses, and both are kept when it does not |
| Gui.EnvOrEmpty | gui.py:166-177 | the environment value, or `""` when the key is unset |
| Gui.Autofilled | gui.py:164-184 | each field gets its value inserted in front of its current text; a list field only when its file's object has the key, and then holds the `", "`-join |
| Gui.AutofillThenSave | gui.py:164-184 | autofill into empty fields and then save writes back the same ids and the same words, when the lists are non-empty and the words are clean |
| Gui.SavedListsReachTheGate | gui.py:107-108 | the saved files give the bot's gate exactly the saved ids and words |
| Gui.UptimeOf | gui.py:209-211 | hours < 24, minutes < 60, seconds < 60, and days, hours, minutes and seconds add back up to the elapsed seconds |
| Gui.UptimeText | gui.py:212-213 | the label text begins with "Uptime: " and ends with the seconds unit "s" |
| Gui.UptimeTextOfZero | gui.py:231 | the label's initial text "Uptime: 0d 0h 0m 0s" is the text of zero elapsed seconds |
| Gui.UptimeUnderADay | gui.py:210-211 | under a day: no days, `h = s div 3600`, `m = (s mod 3600) div 60`, `sec = s mod 60` |
| Gui.UptimeUnique | gui.py:210-211 | the split within those bounds is the only one |
| Gui.LatestLogin | gui.py:192-197 | no name if and only if no line matches |
| Gui.LatestLoginIsLatest | gui.py:193-197 | the name comes from a matching line after which no line matches |
| Gui.FindLatestLogin | gui.py:192-197 | the backwards loop with its early stop computes `LatestLogin` |
| Gui.LaterLoginWins | gui.py:193-197 | a login line added at the end decides the name |
| Gui.TrailingNoiseIgnored | gui.py:193-197 | lines without a login after the last login line do not change the name |
| Gui.SettingsWindow.constructor | gui.py:228-231 | empty fields and the two placeholder labels |
| Gui.SettingsWindow.CheckSettings | gui.py:149-161 | the result is `Complete`, with one error box exactly when it is false |
| Gui.SettingsWindow.SaveSettings | gui.py:84-113 | `.env` holds the four lines of the fields; the record grows by `SaveEffects`; the JSON files follow `FilesAfter` |
| Gui.SettingsWindow.SaveLists | gui.py:98-113 | after `.env`: the rest of `SaveEffects` and the JSON files |
| Gui.SettingsWindow.StoreLists | gui.py:107-113 | the JSON writes and the success box, or the error box, in `SaveOrder`'s order |
| Gui.SettingsWindow.AutofillSettings | gui.py:164-184 | the fields become `Autofilled` of the old fields |
| Gui.SettingsWindow.UpdateBotUsername | gui.py:187-203 | the label shows "Logged in as: " and the latest login name; without a name the label is kept and a retry is asked for |
| Gui.SettingsWindow.UpdateUptime | gui.py:206-215 | the label shows the uptime once the bot was started and is untouched before |

## Left out

- Discord I/O: sending, `fetch_user`, `change_presence` and `close` are recorded as
  actions. The user lookup is a parameter. Its failure ends the handler, with no reply modelled.
- The `ping` command: wall-clock timing and message deletion and editing.
- The `help1` command: it sends one fixed text.
- The PiShock library: the device call is a recorded event. Its outcome, delivered or an
  exception with a message, is a parameter of the call.
- Logging to the console and the log file.
- `dotenv` loading: the environment is a map and `.env` a list of lines.
- JSON encoding: a document is modelled by its "whitelist" and "words" entries and
  whether it has other keys. Top-level values that are not objects, and entries of the
  wrong type, are not modelled. Among these is an entry of "words" equal to `[0]`
  (for example `[0]`, `[0.0]` or `[false]`, since Python's `in` compares with `==`), the
  kind of entry that would make the check at cogs/shock.py:70 false.
- Exceptions of `load_json` other than a missing or malformed file (e.g. a permission error).
- The exceptions `save_json` of gui.py catches and prints. A failure to write `.env` is
  not modelled either.
- Gui.SaveEffects: the error box carries the rejected piece rather than the
  rendered text "Failed to save settings: invalid literal for int() with base 10:
  " followed by its `repr`.
- PyText.ParseInt: Python's `int()` also accepts non-ASCII decimal digits and refuses
  literals longer than 4300 digits. The model accepts ASCII digits of any length.
- PyText.Lower: only ASCII letters are lower-cased.
- Framework argument conversion for `test`, `setshocker`, `username`, `add` and
  `remove_word` (a missing or non-integer argument) is done by discord.py before the
  handler runs.
- Process control in gui.py: `terminate_bot_processes`, `start_bot`, `time.sleep`.
- The widgets, `mainloop` and `root.after` scheduling. `UpdateBotUsername` returns
  whether it would reschedule itself. `UpdateUptime` takes the elapsed whole seconds,
  or none before the bot was started.
- Gui.UptimeOf: the microseconds of `timedelta` are ignored, since they are not shown.
- Gui.SettingsWindow.UpdateBotUsername: a missing `bot_log.log` makes `open` raise
  `FileNotFoundError` (gui.py:189-190). The model takes the log lines as a given parameter and
  does not model that error.
- The login regex of gui.py:194 is a parameter `matcher` from a line to its first group.
- main.py is not part of this model.
- The async structure: each handler is one sequential step.
- ShockCog.Shocker.ShockMessage, ShockCog.Shocker.SendShock: `on_message` calls
  `self.shock_message(self, message)` (cogs/shock.py:64), so inside `shock_message`,
  and in the `send_shock` it calls, `ctx` is the cog itself. Each `ctx.channel.send` there
  (cogs/shock.py:74, 87, 168, 172, 181, 182, 186) would raise `AttributeError`, and no
  reply would follow a device call. The model records the replies as if `ctx` were the
  message's context. On the trigger path none of this is reached, because the check at
  cogs/shock.py:70 returns first (`OnMessageNeverActs`). Through the `test` command
  `send_shock` has a real context and behaves as modelled.
