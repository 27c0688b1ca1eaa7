# Civilization VI lobby watcher — a Dafny model

The watcher follows the game's network log (`net_connection_debug.log`). It
recognises the lines where a player's Steam connection is created (a join)
or closed (a leave), and remembers each player's display name by Steam
identifier. Every event is announced with a colour and, for players on a
local watchlist, with a warning sound. The watchlist is a text file of
`SteamID, reason` lines. A companion editor appends entries to that file:
it pulls the identifier out of pasted text or a profile URL, warns about
duplicates and fills in default names and reasons.

This project models that logic and proves properties of it:

- `text.dfy` (module `Text`): Python's `str.strip()` over the exact set of
  code points `str.isspace()` accepts, leftmost search, and substring
  occurrence.
- `watchlist.dfy` (module `Watchlist`): `load_watchlist`. It works line by
  line: strip, skip blank and `#` lines, cut at the first comma, last write
  wins. `LoadWatchlist` is the loop itself. `WatchlistOf` is its
  specification.
- `log_patterns.dfy` (module `LogPatterns`): the two regular expressions
  written as matchers with `re.search` semantics:
  - `Steam ConnectionID Created: \d+ \((.*?) \[(\d{17})\]\)` (the leftmost
    match, with the shortest name at that start);
  - `Steam Connection Closed: (\d{17})`.
- `monitor.dfy` (module `Monitor`): the body of the monitoring loop.
  - The class `LobbyMonitor` holds the watchlist and the `known_players` map.
  - `ProcessLine` is one loop iteration. `Run` is the loop over the lines
    the log tailer delivers.
  - `Step` and `Replay` specify both. `Alert` is the four-way presentation
    policy: colour, message and tone pattern.
- `add_player.dfy` (module `AddPlayer`): `extract_steam_id`,
  `check_duplicate`, the defaults for name and reason, and the appended
  line. Round-trip lemmas connect these to the watchlist parser.

The join check and the leave check in the loop are two independent `if`
statements (civ6_watchv2.py:120 and :140). The join does not take
precedence: both checks run on every line. A line matching both raises the
join alert first, then the leave alert, which already carries the name the
join just stored.

## Model

| member | source | states |
|---|---|---|
| Text.Strip | civ6_watchv2.py:42 | the stripped text is no longer than the input and has no whitespace at either end |
| Text.StripIsSlice | civ6_watchv2.py:42 | `strip()` removes only whitespace, and only at the two ends: the result is a slice of the input with nothing but whitespace on either side |
| Text.IndexOf | civ6_watchv2.py:44 | the cut position of `split(",", 1)` is the first comma; it is absent exactly when the line has no comma |
| Text.FindFrom | civ6_watchv2.py:120 | the search reports the leftmost position at which the pattern matches, or no position when it matches nowhere |
| Watchlist.ParseLine | civ6_watchv2.py:42-47 | the loop body for one line; an entry it yields has both halves trimmed (the full characterisation is `ParseLineSpec`) |
| Watchlist.ParseLineSpec | civ6_watchv2.py:42-47 | a line gives no entry exactly when it is blank after stripping, starts with `#`, or has no comma; otherwise the identifier is the trimmed text before the first comma and the reason is the trimmed rest, commas included |
| Watchlist.LoadWatchlist | civ6_watchv2.py:25-51 | a missing file gives the empty map; otherwise the loop builds exactly the map `WatchlistOf` gives for the file's lines |
| Watchlist.Absorb | civ6_watchv2.py:45-47 | defines the map after one more line: an accepted line overwrites the entry for its identifier, any other line leaves the map alone (its properties are `AbsorbKeys` and `AppendLine`) |
| Watchlist.WatchlistOf | civ6_watchv2.py:41-47 | defines the map the loop builds from the file's lines, in file order; `LoadWatchlist` is proved equal to it and the `Watchlist*` lemmas state its properties |
| Watchlist.AbsorbKeys | civ6_watchv2.py:45-47 | reading one line adds at most its own identifier to the map |
| Watchlist.WatchlistKeySource | civ6_watchv2.py:41-47 | every identifier in the map comes from an accepted line that names it |
| Watchlist.WatchlistKeyPresent | civ6_watchv2.py:41-47 | every identifier named by an accepted line is in the map |
| Watchlist.WatchlistKeys | civ6_watchv2.py:41-47 | an identifier is in the map if and only if some accepted line names it |
| Watchlist.WatchlistLastWriteWins | civ6_watchv2.py:41-47 | the reason stored for an identifier is the one on the last line naming it, whatever other lines say |
| Watchlist.WatchlistIgnoresLine | civ6_watchv2.py:42-45 | a blank, comment or comma-less line inserted anywhere leaves the loaded map unchanged |
| Watchlist.AppendLine | civ6_watchv2.py:41-47 | appending an accepted line updates exactly its own identifier |
| Watchlist.CreatedFileIsEmpty | civ6_watchv2.py:31-37 | the header file the watcher creates loads as the empty map |
| LogPatterns.JoinShape | civ6_watchv2.py:111 | defines a match of `Steam ConnectionID Created: \d+ \((.*?) \[(\d{17})\]\)` at a start position, with the digit run and the name span; `JoinAt` and `MatchJoinIsFirstMatch` are stated against it |
| LogPatterns.DigitRunEnd | civ6_watchv2.py:111 | the `\d+` run ends at the first non-digit |
| LogPatterns.LazyNameEnd | civ6_watchv2.py:111 | the lazy `(.*?)` stops at the first position where the tail ` [17 digits])` follows, without crossing a newline, and fails when there is none |
| LogPatterns.JoinAt | civ6_watchv2.py:111 | the join pattern anchored at one start position: a match exists exactly when the shape occurs there; the digit run is unique and the reported name is the shortest |
| LogPatterns.JoinDigitsEnd | civ6_watchv2.py:111 | since ` (` must follow `\d+`, every match at one start covers the whole digit run |
| LogPatterns.MatchJoin | civ6_watchv2.py:120-123 | a reported join carries a 17-digit identifier and a name without a newline |
| LogPatterns.FirstJoinUnique | civ6_watchv2.py:120-123 | the leftmost, shortest match is unique |
| LogPatterns.MatchJoinIsFirstMatch | civ6_watchv2.py:120-123 | the join matcher reports a match if and only if the pattern occurs; the groups it reports belong to the leftmost match with the shortest name |
| LogPatterns.FirstJoinReported | civ6_watchv2.py:120-123 | whenever the first match is known, its name and identifier are what the matcher reports |
| LogPatterns.JoinLineRoundTrip | civ6_watchv2.py:111-123 | a log line carrying a join record, with no `S` before the record and no newline or ` [` in the name, reads back as that record's name and identifier |
| LogPatterns.LeaveAt | civ6_watchv2.py:112 | defines a match of `Steam Connection Closed: (\d{17})` at a start position; `MatchLeaveIsFirstMatch` is stated against it |
| LogPatterns.MatchLeave | civ6_watchv2.py:112 | a reported leave carries a 17-digit identifier |
| LogPatterns.MatchLeaveIsFirstMatch | civ6_watchv2.py:140-142 | the leave matcher reports a match if and only if the pattern occurs; it reports the 17 digits after the leftmost marker, so a longer digit run gives its first 17 digits |
| LogPatterns.LeaveLineRoundTrip | civ6_watchv2.py:140-142 | a log line carrying a leave record, with no `S` before the record, reads back as its identifier |
| Monitor.AlertSound | civ6_watchv2.py:57-69 | `play_alert_sound`: defines the tone list, three tones for danger and one otherwise; `DecisionTable` states the exact tones for each alert |
| Monitor.Alert | civ6_watchv2.py:128-154 | each alert keeps the event's kind, identifier and name; it is flagged as watched, and plays tones, exactly when the identifier is on the watchlist |
| Monitor.AlertMessage | civ6_watchv2.py:131-153 | every message names the player; a watched player's message gives the watchlist reason; every message except the watched leave gives the identifier |
| Monitor.DecisionTable | civ6_watchv2.py:57-69 | the four presentations: watched join red with tones 1000/200, 1000/200, 2000/500; other join cyan, silent; watched leave yellow with tone 800/300; other leave grey, silent |
| Monitor.DisplayName | civ6_watchv2.py:143 | `known_players.get(p_id, "Unknown")`: the stored name, or `Unknown` for an identifier no join named; `StepAlerts` and `LeaveWithoutJoin` state its use |
| Monitor.Extract | civ6_watchv2.py:120-142 | runs both patterns on one line; every identifier either finds is 17 digits |
| Monitor.Step | civ6_watchv2.py:119-154 | defines one loop iteration: the join updates the map and raises its alert, then the leave raises its alert under the name known after the join; `StepKnown`, `StepAlerts` and `JoinAndLeaveOnOneLine` state its properties |
| Monitor.Replay | civ6_watchv2.py:118-154 | defines the loop over a sequence of lines, each read with the map the previous one left; `Run` is proved equal to it and the `Replay*` lemmas state its properties |
| Monitor.LobbyMonitor.constructor | civ6_watchv2.py:19 | the monitor starts with the loaded watchlist and no known players |
| Monitor.LobbyMonitor.ProcessLine | civ6_watchv2.py:118-154 | one line updates the known players and raises the alerts `Step` gives; a join stores its name under its identifier and changes no other entry; no join leaves the map alone; a line matching nothing raises nothing; a leave's alert is last and uses the name known after the line |
| Monitor.LobbyMonitor.Run | civ6_watchv2.py:118 | the loop over the lines ends in the state `Replay` gives, with every line's alerts in order |
| Monitor.StepKnown | civ6_watchv2.py:120-126 | only a line's join writes the known-players map, with exactly its name under its identifier |
| Monitor.StepAlerts | civ6_watchv2.py:140-154 | a line matching nothing raises no alert; a leave raises the last alert, under the name known after the line's own join, or `Unknown` |
| Monitor.JoinAndLeaveOnOneLine | civ6_watchv2.py:119-154 | a line matching both patterns raises the join alert, then a leave alert that already uses the name the join stored |
| Monitor.ReplayUnjoinedUnchanged | civ6_watchv2.py:139-143 | a player who never joins keeps what was known about them: leaves neither add nor remove names |
| Monitor.ReplayLastJoinWins | civ6_watchv2.py:125-126 | the stored name is the one from the player's last join line |
| Monitor.ReplayKeepsKnown | civ6_watchv2.py:140-143 | names are never forgotten: every known identifier stays known |
| Monitor.ReplaySoundOnlyForWatched | civ6_watchv2.py:128-154 | an alert plays sound if and only if its identifier is on the watchlist |
| Monitor.ReplaySkipsUnmatched | civ6_watchv2.py:118-154 | lines that match neither pattern change nothing and raise nothing, wherever they stand |
| Monitor.ReplayPair | civ6_watchv2.py:118 | two lines in a row: the second is read with the map the first left |
| Monitor.JoinNoiseLeave | civ6_watchv2.py:118-154 | join, noise, leave for one player raise exactly the join alert and the leave alert under the joined name |
| Monitor.WatchedJoinThenLeave | civ6_watchv2.py:118-154 | for a watched player, those lines give a red alert with the three-tone warning, then a yellow alert with the single tone naming the player and the reason |
| Monitor.LeaveWithoutJoin | civ6_watchv2.py:143 | a leave for a player no join named is still announced, under the name `Unknown` |
| AddPlayer.SteamIdAt | add_player.py:19 | defines a match of `7656\d{13}` at a start position |
| AddPlayer.IdAt | add_player.py:23 | defines a match of `\d{17}` at a start position |
| AddPlayer.SteamIdIsId | add_player.py:19-23 | every `7656` + 13 digits match is also a 17-digit match |
| AddPlayer.ExtractSteamId | add_player.py:13-26 | a found identifier is 17 digits |
| AddPlayer.ExtractSteamIdSpec | add_player.py:13-26 | nothing is found exactly when the text has no 17 consecutive digits; the leftmost `7656` run wins even over an earlier plain run; without one the leftmost plain run is taken; the result is a piece of the input |
| AddPlayer.CheckDuplicate | add_player.py:28-40 | a missing file has no duplicate; otherwise the identifier is a duplicate exactly when it occurs anywhere in the file's text |
| AddPlayer.DuplicateAnywhere | add_player.py:36-37 | the test is a plain substring test: an identifier inside a reason or a comment counts as present |
| AddPlayer.FieldOrDefault | add_player.py:83-90 | a stored name or reason is the stripped input when that is non-empty, and the default (`Unknown`, `理由なし`) when it is empty; it is never empty and never padded |
| AddPlayer.StoredReason | add_player.py:94 | the reason column `[name] reason` starts with `[`, is non-empty and has no whitespace at either end, so the watcher's `strip()` keeps it whole |
| AddPlayer.FormatEntry | add_player.py:94 | the appended line starts with the identifier and a comma and ends with a newline |
| AddPlayer.KeyValueLineRoundTrip | civ6_watchv2.py:42-47 | a `key, value` line with a digit key and an unpadded value reads back as that key and value |
| AddPlayer.FormatEntryRoundTrip | add_player.py:94 | the watcher reads the editor's line back as the identifier with reason `[name] reason` |
| AddPlayer.AddedPlayerIsLoaded | add_player.py:94-97 | appending the editor's line to the watchlist and loading it gives the old map with the new entry for the extracted identifier |
| AddPlayer.DuplicateAfterAdd | add_player.py:69 | once a player has been added, adding the same identifier again is reported as a duplicate |
| AddPlayer.EditorHeaderIsComment | add_player.py:53-55 | the header the editor writes is a comment and adds no entry |

## Left out

- The log tailer `follow` (seek to the end, poll with `readline`, sleep
  0.1 s) and the wait for the log file to appear. The model takes the
  delivered lines as a sequence.
- File access: opening, creating, reading and appending files, the path
  built from `LOCALAPPDATA`, and the `try`/`except` around them. A missing
  watchlist is `None`. The header the watcher writes is covered only by
  `CreatedFileIsEmpty`. A read error part-way through leaves the map
  built from the lines read before it, which is `WatchlistOf` of that
  prefix.
- Splitting file text into lines. Python's universal-newline mode (`\r`,
  `\r\n`) is not modelled: the file arrives as its sequence of lines.
- `winsound.Beep` playback and its `try`/`except`. Only the selected tone
  list is modelled.
- `log_print`: the `time.strftime` timestamp, the reset code and printing.
  An alert carries its colour code and message.
- The console banners, `cls`/`clear`, and `KeyboardInterrupt` handling.
- The interactive `main` of the editor: the `input()` loops, the y/n
  confirmation after a duplicate warning, and the final sleep. Only its
  helpers and the line it appends are modelled.
- Unicode digits: Python's `\d` also matches non-ASCII decimal digits. The
  model matches ASCII `0`-`9` only. Whitespace, by contrast, is the full
  `str.isspace()` set.
- LogPatterns.JoinLineRoundTrip: stated only for names without ` [` and
  for text before the record without `S`. A name containing
  ` [` + 17 digits + `])` makes the lazy group stop early, and an earlier
  marker wins the leftmost match. Names with brackets elsewhere, such as a
  `[JP]` clan tag, are covered. The matcher itself is characterised for
  every line by `MatchJoinIsFirstMatch`.
- LogPatterns.LeaveLineRoundTrip: stated only for text before the record
  without `S`, because an earlier leave marker in that text would win the
  leftmost match. The matcher itself is characterised for every line by
  `MatchLeaveIsFirstMatch`.
- AddPlayer.AddedPlayerIsLoaded: stated for a watchlist whose text ends
  with a line break, so that the appended line is a line of its own. When
  the last line lacks a newline, the editor's text is glued onto it. The
  appended text itself is one line, as `AddPlayer.FormatEntryRoundTrip`
  takes it: name and reason come from `input()` (add_player.py:83, :88),
  which never returns a line break, so the only newline is the final one.
