/** The helpers of the watchlist editor: pulling a Steam identifier out of
    pasted text or a profile URL, the duplicate test, and the line it
    appends to the watchlist file. */
module AddPlayer {
  import opened Text
  import opened Watchlist
  import LogPatterns

  /** The leading digits of every 64-bit Steam account identifier in decimal. */
  const SteamPrefix := "7656"

  const DefaultName := "Unknown"
  const DefaultReason := "理由なし"

  /** The line the editor writes when it creates the watchlist file. */
  const EditorHeader := "# 形式: SteamID, [名前] 理由\n"

  /** `7656\d{13}` matches at `p`. */
  predicate SteamIdAt(s: string, p: nat) {
    IsPrefixAt(SteamPrefix, s, p) && DigitsAt(s, p + |SteamPrefix|, LogPatterns.IdLength - |SteamPrefix|)
  }

  /** `\d{17}` matches at `p`. */
  predicate IdAt(s: string, p: nat) {
    DigitsAt(s, p, LogPatterns.IdLength)
  }

  /** Every `7656\d{13}` match is also a `\d{17}` match. */
  lemma SteamIdIsId(s: string, p: nat)
    requires SteamIdAt(s, p)
    ensures IdAt(s, p)
  {
    forall k | p <= k < p + |SteamPrefix| ensures IsDigit(s[k]) {
      assert s[k] == s[p..p + |SteamPrefix|][k - p];
    }
  }

  /** `extract_steam_id`: the leftmost `7656`-prefixed 17-digit run, or
      failing that the leftmost 17-digit run, or `None`. */
  function ExtractSteamId(text: string): (r: Option<string>)
    ensures r.Some? ==> |r.value| == LogPatterns.IdLength && AllDigits(r.value)
  {
    match FindFrom(text, 0, SteamIdAt)
    case Some(p) =>
      SteamIdIsId(text, p);
      Some(text[p..p + LogPatterns.IdLength])
    case None =>
      match FindFrom(text, 0, IdAt)
      case Some(p) => Some(text[p..p + LogPatterns.IdLength])
      case None => None
  }

  /** `p` is the leftmost position at which `7656\d{13}` matches. */
  ghost predicate FirstSteamIdAt(s: string, p: nat) {
    SteamIdAt(s, p) && forall q: nat :: q < p ==> !SteamIdAt(s, q)
  }

  /** `p` is the leftmost position at which `\d{17}` matches. */
  ghost predicate FirstIdAt(s: string, p: nat) {
    IdAt(s, p) && forall q: nat :: q < p ==> !IdAt(s, q)
  }

  /** The identifier is found exactly when the text holds 17 consecutive
      digits; a `7656`-prefixed run wins even over an earlier plain run;
      without one, the leftmost plain run is taken. The result is always a
      piece of the input. */
  lemma ExtractSteamIdSpec(text: string)
    ensures ExtractSteamId(text).None? <==> forall p: nat :: !IdAt(text, p)
    ensures forall p: nat :: FirstSteamIdAt(text, p) ==>
              ExtractSteamId(text) == Some(text[p..p + LogPatterns.IdLength])
    ensures forall p: nat :: (forall q: nat :: !SteamIdAt(text, q)) && FirstIdAt(text, p) ==>
              ExtractSteamId(text) == Some(text[p..p + LogPatterns.IdLength])
    ensures ExtractSteamId(text).Some? ==> Occurs(ExtractSteamId(text).value, text)
  {
    match FindFrom(text, 0, SteamIdAt)
    case Some(p) =>
      SteamIdIsId(text, p);
      forall p': nat | FirstSteamIdAt(text, p') ensures p' == p {
      }
      assert IsPrefixAt(text[p..p + LogPatterns.IdLength], text, p);
    case None =>
      forall q: nat ensures !SteamIdAt(text, q) {
        if q > |text| { assert !IsPrefixAt(SteamPrefix, text, q); }
      }
      match FindFrom(text, 0, IdAt)
      case Some(p) =>
        forall p': nat | FirstIdAt(text, p') ensures p' == p {
        }
        assert IsPrefixAt(text[p..p + LogPatterns.IdLength], text, p);
      case None =>
        forall q: nat ensures !IdAt(text, q) {
          if q > |text| { assert !DigitsAt(text, q, LogPatterns.IdLength); }
        }
  }

  /** `check_duplicate`: false when the file is missing, otherwise whether
      the identifier occurs anywhere in the file's text. */
  function CheckDuplicate(file: Option<string>, targetId: string): (r: bool)
    ensures r <==> file.Some? && Occurs(targetId, file.value)
  {
    match file
    case None => false
    case Some(content) =>
      var at := (t: string, p: nat) => IsPrefixAt(targetId, t, p);
      var found := FindFrom(content, 0, at);
      assert found.None? ==> forall p: nat :: !IsPrefixAt(targetId, content, p) by {
        if found.None? {
          forall p: nat ensures !IsPrefixAt(targetId, content, p) {
            assert !at(content, p);
          }
        }
      }
      found.Some?
  }

  /** The test is a plain substring test: the identifier counts as present
      wherever it stands, in a reason or a comment as well as in the
      identifier column. */
  lemma DuplicateAnywhere(before: string, targetId: string, after: string)
    ensures CheckDuplicate(Some(before + targetId + after), targetId)
  {
    OccursInMiddle(before, targetId, after);
  }

  /** A name or reason as the editor stores it: stripped, or the default
      when nothing is left. Either way it is non-empty and unpadded. */
  function FieldOrDefault(raw: string, default: string): (v: string)
    requires default != [] && Unpadded(default)
    ensures v != [] && Unpadded(v)
    ensures Strip(raw) != [] ==> v == Strip(raw)
    ensures Strip(raw) == [] ==> v == default
  {
    var s := Strip(raw);
    if s == [] then default else s
  }

  /** The reason column of an appended line: `[name] reason`. It starts
      with the bracket and is unpadded, so the watcher's `strip()` keeps it
      whole. */
  function StoredReason(rawName: string, rawReason: string): (r: string)
    ensures r != [] && r[0] == '[' && Unpadded(r)
  {
    "[" + FieldOrDefault(rawName, DefaultName) + "] " + FieldOrDefault(rawReason, DefaultReason)
  }

  /** The line the editor appends: `"{id}, [{name}] {reason}\n"`. */
  function FormatEntry(steamId: string, rawName: string, rawReason: string): (line: string)
    ensures |line| > |steamId| + 1 && line[..|steamId|] == steamId && line[|steamId|] == ','
    ensures line[|line| - 1] == '\n'
  {
    steamId + ", [" + FieldOrDefault(rawName, DefaultName) + "] " + FieldOrDefault(rawReason, DefaultReason) + "\n"
  }

  /** Stripping a `key, value` line removes just its newline. */
  lemma KeyValueLineStripped(key: string, value: string)
    requires key != [] && AllDigits(key) && value != [] && Unpadded(value)
    ensures Strip(key + ", " + value + "\n") == key + ", " + value
  {
    var body := key + ", " + value;
    assert key + ", " + value + "\n" == body + ['\n'];
    assert body[0] == key[0];
    assert body[|body| - 1] == value[|value| - 1];
    StripDropsTrailingSpace(body, '\n');
    StripUnpadded(body);
  }

  /** The first comma of a `key, value` line with a digit key is the one
      after the key. */
  lemma KeyValueLineComma(key: string, value: string)
    requires AllDigits(key)
    ensures var body := key + ", " + value;
      FirstComma(body, |key|) && body[..|key|] == key && body[|key| + 1..] == [' '] + value
  {
    var body := key + ", " + value;
    assert body[..|key|] == key;
    assert body[|key| + 1..] == [' '] + value;
  }

  /** A line `key, value` followed by a newline, with a digit key and an
      unpadded value, reads back as that key and value. */
  lemma KeyValueLineRoundTrip(key: string, value: string)
    requires key != [] && AllDigits(key) && value != [] && Unpadded(value)
    ensures ParseLine(key + ", " + value + "\n") == Some(Entry(key, value))
  {
    var line := key + ", " + value + "\n";
    var body := key + ", " + value;
    KeyValueLineStripped(key, value);
    KeyValueLineComma(key, value);
    ParseLineSpec(line);
    StripUnpadded(key);
    StripDropsLeadingSpace(' ', value);
    StripUnpadded(value);
  }

  /** Reading back an appended line gives the identifier as key and
      `[name] reason` as the reason, commas in the reason included. */
  lemma FormatEntryRoundTrip(steamId: string, rawName: string, rawReason: string)
    requires steamId != [] && AllDigits(steamId)
    ensures ParseLine(FormatEntry(steamId, rawName, rawReason)) == Some(Entry(steamId, StoredReason(rawName, rawReason)))
  {
    var reason := FieldOrDefault(rawReason, DefaultReason);
    var value := StoredReason(rawName, rawReason);
    assert value[|value| - 1] == reason[|reason| - 1];
    assert FormatEntry(steamId, rawName, rawReason) == steamId + ", " + value + "\n";
    KeyValueLineRoundTrip(steamId, value);
  }

  /** Appending the editor's line to a watchlist file and loading it again
      gives the old map with the new entry for the extracted identifier. */
  lemma AddedPlayerIsLoaded(lines: seq<string>, rawInput: string, rawName: string, rawReason: string)
    requires ExtractSteamId(rawInput).Some?
    ensures var id := ExtractSteamId(rawInput).value;
      WatchlistOf(lines + [FormatEntry(id, rawName, rawReason)]) == WatchlistOf(lines)[id := StoredReason(rawName, rawReason)]
  {
    var id := ExtractSteamId(rawInput).value;
    FormatEntryRoundTrip(id, rawName, rawReason);
    AppendLine(lines, FormatEntry(id, rawName, rawReason));
  }

  /** Once a player is added, adding the same identifier again is reported
      as a duplicate. */
  lemma DuplicateAfterAdd(content: string, steamId: string, rawName: string, rawReason: string)
    ensures CheckDuplicate(Some(content + FormatEntry(steamId, rawName, rawReason)), steamId)
  {
    var line := FormatEntry(steamId, rawName, rawReason);
    assert line == steamId + line[|steamId|..];
    DuplicateAnywhere(content, steamId, line[|steamId|..]);
    assert content + line == content + steamId + line[|steamId|..];
  }

  /** The header the editor writes is a comment and adds no entry. */
  lemma EditorHeaderIsComment()
    ensures ParseLine(EditorHeader).None?
  {
    StripKeepsFirst(EditorHeader);
  }
}
