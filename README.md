# uffbot soundboard — a Dafny model

This project models the core of *uffbot*, a Discord bot that plays short
audio clips in voice channels. It covers three parts:

- **The sound catalog** (`Sounds` in `uffbot/commands/soundboard.py`). This
  is a dictionary from clip name to clip. It is filled from the `data/mp3`
  directory and merged again on every reload. A lookup by name returns the
  clip stored under that name; a lookup by the wildcard `'*'` returns a
  random clip. The autocomplete suggestions and
  the `list` reply are built from the catalog's keys.
- **The voice session of the `sb` command group** (`SoundBoard` in the same
  file). It holds one optional voice connection and the clip recorded as
  playing. It covers `play_sound`, which connects only when no connection
  exists, and the `disconnector` watchdog, which closes an idle connection.
  It also covers the `stop`, `play`, `upload`, `list` and `reload` commands,
  and the voice-presence handler, which plays a random clip when a member
  joins a channel.
- **Start-up registration** (`UffBot.command_init` in `uffbot/bot.py`) and the
  `ACTIVE_GUILDS` parser (`get_active_guild_ids` in `main.py`).

Files:

- `wrappers.dfy` holds `Option` and `Result`.
- `text.dfy` holds the Python string operations the code relies on:
  `join`, `split`, `strip`, `rstrip`, ASCII `lower`, substring `in` and slicing.
- `sounds.dfy`, `soundboard.dfy`, `bot.dfy` and `guild_ids.dfy` each model one
  of the parts above.

Stateful objects are classes whose methods update their fields:
`SoundCatalog.Sounds`, `Board.SoundBoard`, `Bot.CommandTree` and `Bot.UffBot`.
Each such method is tied to a pure function of the old state, for example
`Reloaded`, `PlaySoundStep`, `Tick` or `InitTrace`. The lemmas are proved
about those functions.

Inputs from the outside world are parameters:

- The directory listing is an `Option<seq<string>>`; `None` means the
  directory is missing.
- The random draw of `random.choice` is an arbitrary natural `pick`. The
  model reduces it modulo the number of values. This fixes only which clips
  a draw can return, not how likely each one is.
- The guild syncs that the platform refuses are a set of guild ids.
- The end of a stream is an event method, `PlaybackFinished`.
- The value of `ACTIVE_GUILDS` is an `Option<string>`.

Some behaviours of the code are easy to misread; the model follows the code
as written:

- A clip's name is `filename.rstrip('.mp3')`. This strips a trailing *set* of
  characters, not a suffix, so `jump.mp3` is named `ju` and `3.mp3` gets the
  empty name.
- Reload merges into the dictionary (`dict.update`). It does not replace it,
  so a clip deleted from storage stays in the catalog.
- A file can give the name `'*'`, for example `*.mp3`. `values()` reads each
  entry back through the overridden `__getitem__`. So with a stored `'*'`,
  every wildcard lookup recurses without end. The model returns
  `RecursionError` in that case.
- `upload` checks the content type only; the extension is never checked.
- `play` resolves the sound argument in its transformer, before the body
  runs. So an unknown sound fails before the voice-channel check, and the
  body's `KeyError` handler is never reached.
- `stop` with a connection only halts the stream. The watchdog clears both
  fields on its next pass.

## Model

| member | source | states |
|---|---|---|
| `Text.JoinFirst` | uffbot/commands/soundboard.py:115 | `"\n".join(names)` starts with the first name, and with two or more names a separator follows it |
| `Text.StripBothEnds` | main.py:16 | `strip()` is `lstrip()` followed by `rstrip()` over the same whitespace set |
| `Text.StripTrims` | main.py:16 | `strip()` never lengthens the piece; what is left neither starts nor ends with whitespace; nothing is left exactly when the piece is all whitespace |
| `Text.Lower` | uffbot/commands/soundboard.py:81 | `lower()` keeps the length and lowers each ASCII letter in place |
| `Text.Split` | main.py:14 | `split(',')` yields at least one piece; no piece contains the separator; joining the pieces gives back the input |
| `Text.SplitJoin` | main.py:14 | splitting a join gives back the parts when no part contains the separator |
| `Text.JoinEmpty` | uffbot/commands/soundboard.py:115-116 | a newline join is empty exactly when there are no names or one empty name |
| `Text.RStrip` | uffbot/commands/soundboard.py:39 | `rstrip(chars)` gives a prefix of the input; the prefix does not end in a stripped character; every dropped character is in the set |
| `Text.StripPadded` | main.py:16 | `strip()` removes the surrounding whitespace and keeps the word whole |
| `SoundCatalog.SoundName` | uffbot/commands/soundboard.py:39 | a clip's name is its file name minus the longest trailing run of `.`, `m`, `p`, `3` |
| `SoundCatalog.SoundNameExamples` | uffbot/commands/soundboard.py:39 | `airhorn.mp3` becomes `airhorn`, `jump.mp3` becomes `ju`, `3.mp3` becomes the empty name |
| `SoundCatalog.Mp3s` | uffbot/commands/soundboard.py:33-42 | `get_mp3s` yields one clip per listed file, in listing order, with the derived name and the file's path; a missing directory yields nothing |
| `SoundCatalog.AssignStores` | uffbot/commands/soundboard.py:31 | one dictionary assignment keeps the old key order as a prefix and stores the clip under its name |
| `SoundCatalog.AssignOthers` | uffbot/commands/soundboard.py:31 | one dictionary assignment leaves every other entry as it was |
| `SoundCatalog.UpdatedShape` | uffbot/commands/soundboard.py:30-31 | merging keeps the dictionary well formed and keeps the old key order as a prefix; the keys become the old keys plus the merged names |
| `SoundCatalog.UpdatedLastWins` | uffbot/commands/soundboard.py:30-31 | every merged clip is stored under its name, and among clips with the same name the last one wins |
| `SoundCatalog.UpdatedRetains` | uffbot/commands/soundboard.py:30-31 | entries whose name is not merged keep their clip |
| `SoundCatalog.ReloadLastWins` | uffbot/commands/soundboard.py:29-40 | after a reload, each listed file's derived name maps to that file's clip unless a later file derives the same name |
| `SoundCatalog.ReloadRetains` | uffbot/commands/soundboard.py:29-31 | after a reload, a name that no listed file derives keeps its old clip, so deleted clips stay |
| `SoundCatalog.ReloadKeys` | uffbot/commands/soundboard.py:29-31 | after a reload the catalog is well formed, the old key order is a prefix, and the names are the old ones plus the derived names |
| `SoundCatalog.ReloadMissingDirectory` | uffbot/commands/soundboard.py:35-42 | a reload from a missing directory leaves the catalog unchanged |
| `SoundCatalog.Values` | uffbot/commands/soundboard.py:45 | for a catalog with no `'*'` entry, `list(values())` holds the stored clips in key order |
| `SoundCatalog.RandomSound` | uffbot/commands/soundboard.py:44-45 | a random draw returns a stored clip; it fails exactly when the catalog is empty or a clip is stored under `'*'`; a stored `'*'` gives `RecursionError`, otherwise an empty catalog gives `IndexError` |
| `SoundCatalog.Lookup` | uffbot/commands/soundboard.py:20-24 | `'*'` gives a stored clip or fails with the errors above; any other key gives exactly the clip stored under it, or `KeyError` when absent |
| `SoundCatalog.WildcardDrawsEvery` | uffbot/commands/soundboard.py:44-45 | every stored clip is reachable: the draw `i` yields the clip of the `i`-th key |
| `SoundCatalog.Sounds.constructor` | uffbot/commands/soundboard.py:71 | the shared catalog starts empty |
| `SoundCatalog.Sounds.Reload` | uffbot/commands/soundboard.py:26-27 | `reload` merges the listing's clips into the catalog and keeps it well formed |
| `SoundCatalog.Sounds.LoadMp3s` | uffbot/commands/soundboard.py:29-31 | `load_mp3s` makes the dictionary equal to the old one updated with the listing's clips, one assignment per file |
| `SoundCatalog.Sounds.SetItem` | uffbot/commands/soundboard.py:31 | one dictionary assignment: a new name is appended to the key order, a known name keeps its place and gets the new clip |
| `SoundCatalog.Matching` | uffbot/commands/soundboard.py:81 | the filter keeps exactly the candidates that contain the typed value, ignoring ASCII case |
| `SoundCatalog.MatchingAppend` | uffbot/commands/soundboard.py:81 | the filter keeps candidate order |
| `SoundCatalog.Autocomplete` | uffbot/commands/soundboard.py:77-82 | at most 25 choices; each has equal name and value, is a key or `'*'`, and contains the typed value ignoring case |
| `SoundCatalog.AutocompleteOrder` | uffbot/commands/soundboard.py:79-82 | the choices are the first 25 of the matching keys in key order, followed by `'*'` when it matches |
| `SoundCatalog.AutocompleteComplete` | uffbot/commands/soundboard.py:79-82 | when at most 25 candidates match, every matching candidate is offered |
| `SoundCatalog.AutocompleteEmptyValue` | uffbot/commands/soundboard.py:81 | an empty value matches everything, so with fewer than 25 keys `'*'` follows all of them |
| `SoundCatalog.ListReply` | uffbot/commands/soundboard.py:113-119 | a non-empty newline join is sent as its first 1999 characters (all of it when shorter); an empty join gets the fixed no-sounds text |
| `SoundCatalog.ListReplyCases` | uffbot/commands/soundboard.py:115-119 | the fixed text is sent exactly for no names or one empty name; otherwise the reply is the first `min(len, 1999)` characters of the newline join |
| `SoundCatalog.ListReplyRoundTrip` | uffbot/commands/soundboard.py:115-117 | a reply that was not cut splits back on newlines into exactly the catalog's names |
| `SoundCatalog.ListReplyExample` | uffbot/commands/soundboard.py:115-117 | the names `airhorn` and `boo` are listed as `airhorn\nboo` |
| `Board.PlaySoundStep` | uffbot/commands/soundboard.py:195-204 | afterwards a connection exists; an open connection is left as it was; from no connection, it connects to the given channel, plays and records the given clip |
| `Board.Tick` | uffbot/commands/soundboard.py:187-193 | a watchdog pass either changes nothing or clears both fields; it leaves no idle connection and never touches a playing one |
| `Board.Finished` | uffbot/commands/soundboard.py:199-203 | the end of a stream keeps the connection, its channel and the recorded clip, and the connection is no longer playing |
| `Board.TransitionsKeepConsistent` | uffbot/commands/soundboard.py:187-204 | `play_sound`, a watchdog pass, the end of a stream and `stop` all keep the connection and the current clip set or cleared together |
| `Board.PlayRequestsKeepFirst` | uffbot/commands/soundboard.py:195-204 | any run of play requests from an idle session, each handled to the end before the next starts, leaves one connection, to the first request's channel, playing the first request's clip |
| `Board.PlayAllConnected` | uffbot/commands/soundboard.py:195-196 | while a connection is open, play requests change nothing: no second connection and no redirect |
| `Board.TicksActOnce` | uffbot/commands/soundboard.py:187-193 | any number of watchdog passes acts like one; after a pass no idle connection is left |
| `Board.PlaybackEndsIdle` | uffbot/commands/soundboard.py:187-204 | a clip that finishes or is stopped is torn down by the next pass; a clip still playing is left alone |
| `Board.Classify` | uffbot/commands/soundboard.py:104-110 | none to channel is a join; channel to none is a leave; every other pair, including none to none and the same channel, is a switch |
| `Board.VoiceStateUpdate` | uffbot/commands/soundboard.py:102-110 | the handler keeps the session consistent; an event about the bot, anything but a join, or a join while connected leaves the session unchanged |
| `Board.VoiceEventsOnlyJoinPlays` | uffbot/commands/soundboard.py:103-110 | a voice event changes the session only when someone other than the bot joins, no connection is open and a clip can be drawn; it then connects to the joined channel with a stored clip (through `on_voice_join`) |
| `Board.UploadDecision` | uffbot/commands/soundboard.py:123-133 | `upload` refuses a wrong content type exactly when the type is not `audio/mpeg`; it refuses a duplicate exactly when the type is right and the derived name is taken; otherwise it adds the file under its own file name |
| `Board.ReuploadIsDuplicate` | uffbot/commands/soundboard.py:127-132 | the upload duplicate check derives names as reload does, so re-uploading a saved and listed file name is refused as a duplicate |
| `Board.SoundBoard.constructor` | uffbot/commands/soundboard.py:86-100 | a new group is named `sb`, has no connection and no current clip, and reloads the shared catalog |
| `Board.SoundBoard.PlaySound` | uffbot/commands/soundboard.py:195-204 | `play_sound` connects, starts the clip and records it only when there is no connection; otherwise nothing changes |
| `Board.SoundBoard.DisconnectorTick` | uffbot/commands/soundboard.py:187-193 | one `disconnector` pass closes an idle connection and clears both fields; otherwise nothing changes |
| `Board.SoundBoard.PlaybackFinished` | uffbot/commands/soundboard.py:199-203 | when the stream ends, the connection stays open and is no longer playing |
| `Board.SoundBoard.StopPlayback` | uffbot/commands/soundboard.py:154-160 | with no connection the reply is "nothing playing"; otherwise the stream halts and the connection stays for the watchdog |
| `Board.SoundBoard.Play` | uffbot/commands/soundboard.py:135-152 | the sound is looked up first; then a target (the caller when none is given) outside voice gets the not-in-voice reply and nothing changes; otherwise `play_sound` runs in the target's channel and the reply names that channel |
| `Board.SoundBoard.OnVoiceStateUpdate` | uffbot/commands/soundboard.py:102-110 | the handler ignores the bot's own events and plays the wildcard clip on a join |
| `Board.SoundBoard.ListSounds` | uffbot/commands/soundboard.py:112-119 | `list` replies with the fixed text or with a prefix of the newline join of the keys, at most 1999 characters |
| `Board.SoundBoard.UploadSound` | uffbot/commands/soundboard.py:121-133 | a wrong content type is refused first, then a taken derived name; neither writes a file or changes the catalog; otherwise the file is written and the catalog reloaded |
| `Board.SoundBoard.ReloadMp3s` | uffbot/commands/soundboard.py:169-172 | `reload` merges the current listing into the catalog |
| `Bot.CommandTree.ClearCommands` | uffbot/bot.py:22 | the global commands are cleared and the guild commands are kept |
| `Bot.CommandTree.Sync` | uffbot/bot.py:23 | a global sync is recorded and changes no commands |
| `Bot.CommandTree.AddCommand` | uffbot/bot.py:27 | adding a name the guild already holds raises `CommandAlreadyRegistered` and changes nothing; otherwise the name is appended to that guild's commands |
| `Bot.CommandTree.SyncGuild` | uffbot/bot.py:28-32 | a guild sync succeeds exactly when the guild does not refuse |
| `Bot.UffBot.constructor` | uffbot/bot.py:12-18 | the bot keeps the active guild ids and starts with an empty tree and no log |
| `Bot.UffBot.CommandInit` | uffbot/bot.py:20-32 | `command_init` clears and syncs the global commands, then handles the active guilds in order up to the first one where `add_command` raises, or all of them; no guild before that one raised, the outcome names the one that did, the calls are those of `InitTrace` for the handled guilds, and each handled guild gets the group and one log line |
| `Bot.UffBot.RegisterGuilds` | uffbot/bot.py:25-32 | the loop over the active guilds stops at the first guild where `add_command` raises; the handled guilds get the fan-out calls, the group and the log lines, and the global commands are untouched |
| `Bot.UffBot.AddToGuild` | uffbot/bot.py:26-32 | one guild's turn: when `add_command` raises nothing changes; otherwise the guild gets the group, one sync attempt that fails exactly for a refusing guild, and the matching log line |
| `Bot.NoClashBeforeEach` | uffbot/bot.py:25-27 | when `add_command` raised at none of the first `n` guilds, it raised at none of them individually |
| `Bot.FanOutAt` | uffbot/bot.py:25-29 | guild `k` gets exactly one add and then one sync attempt, in list order; the sync's success is whether the guild does not refuse |
| `Bot.InitTraceShape` | uffbot/bot.py:20-32 | global clear and sync come first; then each guild in order gets an add and a sync, and a refusal does not stop later guilds |
| `Bot.RegisteredEveryGuild` | uffbot/bot.py:25-27 | every active guild gets the `sb` group, refused or not, and no other guild's commands change |
| `Bot.ClashExactly` | uffbot/bot.py:25-27 | `add_command` raises at an active guild exactly when that guild held `sb` before `command_init` or appears earlier in the list |
| `Bot.FreshTreeNeverClashes` | uffbot/bot.py:25-27 | on a fresh tree with distinct guild ids `add_command` never raises |
| `Bot.SecondInitClashes` | uffbot/bot.py:20-43 | a second `command_init` (another `on_ready`) over the same non-empty list raises at its first guild |
| `Bot.SyncLogExact` | uffbot/bot.py:28-32 | success is logged exactly for the active guilds whose sync did not raise; the warning exactly for those that refused |
| `Bot.MiddleGuildRefuses` | uffbot/bot.py:25-32 | for guilds A, B, C where B refuses, A and C are synced and B's failure is only logged |
| `GuildIds.ParseInt` | main.py:16-17 | `int()` of a stripped piece: the empty string is a `ValueError` |
| `GuildIds.ParseIntGrammar` | main.py:16-17 | `int()` accepts exactly a digit group or a sign followed by one; a digit group is decimal digits with single underscores only between two digits; a value is negative only after a leading `-` |
| `GuildIds.ParseIntUnderscores` | main.py:16-17 | `1_000` is a thousand and `-4_2` is -42; `1__0`, `_1`, `1_`, `+`, `+-1` and the empty string are `ValueError`s |
| `GuildIds.ParseAll` | main.py:13-19 | there are never more ids than pieces |
| `GuildIds.GetActiveGuildIds` | main.py:11-22 | an unset variable gives `[]`; otherwise the ids of the comma pieces that parse after stripping, in order |
| `GuildIds.ParseAllAppend` | main.py:14-16 | parsing is piece by piece: order and duplicates are kept |
| `GuildIds.ParseAllMembers` | main.py:14-18 | an id is in the result exactly when some piece parses to it |
| `GuildIds.EmptyValueYieldsNothing` | main.py:14-18 | an empty variable and an empty piece yield no id |
| `GuildIds.ParseSignedWord` | main.py:16 | `int()` of an optionally signed run of decimal digits is its value |
| `GuildIds.StripSignedDigits` | main.py:16 | stripping a padded, optionally signed run of digits leaves exactly that run |
| `GuildIds.ParseSignedDigits` | main.py:15-16 | a piece holding an optionally signed run of digits, with whitespace around it, parses to exactly its value |
| `GuildIds.ParseIntRoundTrip` | main.py:16 | `int(str(n)) == n` |
| `GuildIds.ParseRenderedId` | main.py:15-16 | a rendered id read as a piece parses back to the id |
| `GuildIds.GuildIdsRoundTrip` | main.py:14-16 | a variable written as ids joined by commas reads back as exactly those ids |

## Left out

- The audio itself is not modelled: `Sound.audio`, `MP3Sound.audio` and the `FFmpegOpusAudio` transcoder. A clip is a name and a path.
- Voice connect, play and disconnect I/O is not modelled. A failing `connect()` is not modelled either. The connection is a channel id and a playing flag, and the end of a stream is the event method `PlaybackFinished`.
- The `disconnector` task's endless loop and its 0.1-second sleep are not modelled; the model has one pass, `DisconnectorTick`, and `TicksActOnce` covers repeated passes.
- The distribution of `random.choice` is not modelled; only which clips a draw can return is.
- The filesystem is not modelled: `os.listdir` is a parameter, and `file.save` is the written path returned by `UploadSound`. A save into a missing directory raises in the source; this is not modelled.
- Reply texts are modelled as outcome values, except the `list` reply. The `stop` reply is a plain string, not an f-string, so it shows the placeholder literally; this is not modelled.
- Logging is not modelled, except `command_init`'s per-guild log lines.
- `manage_theme` and the `themes` dictionary are an empty stub in the source and are not modelled.
- `get_token`, `main`, `on_ready`, `on_message` and the bot's login are start-up plumbing and are not modelled.
- The command tree's internals are not modelled beyond the `sb` name check in `add_command`. A guild sync succeeds unless the guild is in the refusing set, and the global sync always succeeds. Other HTTP errors, which would raise out of `command_init`, are not modelled.
- Bot.UffBot.CommandInit: does not model what building each `SoundBoard(self)` does. That construction reloads the catalog, starts a watchdog, and rebinds the voice-state handler to the newest group; `Board.SoundBoard.constructor` models it on its own.
- Board.SoundBoard.PlaySound: each handler runs as one atomic step, but the source pauses at `await voice_channel.connect()` before it sets `voice_client`. Two overlapping requests both see no connection. Within one guild the second `connect()` then fails in the client library, which allows one voice connection per guild. The voice-state handler of the newest group receives joins from every guild, so overlapping joins in two guilds both connect: the second assignment overwrites `voice_client`, and the first connection is lost from it and is never closed by the watchdog. Such interleavings are not modelled, so `PlayRequestsKeepFirst` and `TransitionsKeepConsistent` hold only for steps that do not overlap.
- Board.SoundBoard.PlaySound: a `voice_client.play` that raises leaves `voice_client` set and `current_sound` unset, which breaks `Consistent`. Failures of `play` are not modelled.
- Board.SoundBoard.DisconnectorTick: one pass is atomic, but the source pauses at `await self.voice_client.disconnect()` before it clears the fields. A play request arriving in that pause finds the closing connection, is dropped, and is still answered as playing. This interleaving is not modelled.
- GuildIds.ParseInt: has no length limit. From Python 3.11, `int()` refuses strings of more than 4300 digits with a `ValueError`, so the source skips such a piece while the model parses it. `ParseIntRoundTrip` and `GuildIdsRoundTrip` hold in the source only for ids of at most 4300 digits.
- Character handling is ASCII only: `lower()`, the whitespace that `strip()` removes, and the digits `int()` accepts. Non-ASCII letters, spaces and digits are not modelled.
- The bot's own user is compared by id.
