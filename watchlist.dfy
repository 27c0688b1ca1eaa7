/** The watchlist store of the watcher (`load_watchlist`): a text file of
    `<identifier>, <reason>` lines turned into a map from identifier to
    reason. The file is given as its sequence of lines; a missing file is
    `None`. */
module Watchlist {
  import opened Text

  /** One accepted watchlist line. */
  datatype Entry = Entry(id: string, reason: string)

  /** The line the watcher writes when it creates a missing watchlist file. */
  const CreatedHeader := "# SteamID, 理由\n"

  /** `i` is the position of the first comma of `s`, where `split(",", 1)` cuts. */
  predicate FirstComma(s: string, i: nat) {
    i < |s| && s[i] == ',' && ',' !in s[..i]
  }

  /** The body of the `for line in f` loop for one line: strip it, skip it
      when blank or a `#` comment, cut it at the first comma, and trim both
      halves. */
  function ParseLine(raw: string): (r: Option<Entry>)
    ensures r.Some? ==> Unpadded(r.value.id) && Unpadded(r.value.reason)
  {
    var line := Strip(raw);
    if line == [] || line[0] == '#' then None
    else
      match IndexOf(line, ',')
      case None => None
      case Some(i) =>
        Some(Entry(Strip(line[..i]), Strip(line[i + 1..])))
  }

  /** A line yields nothing exactly when it is blank, a comment, or has no
      comma; otherwise the identifier is the trimmed text before the first
      comma and the reason the trimmed text after it, commas included. */
  lemma ParseLineSpec(raw: string)
    ensures ParseLine(raw).None? <==> Strip(raw) == [] || Strip(raw)[0] == '#' || ',' !in Strip(raw)
    ensures forall i: nat :: ParseLine(raw).Some? && FirstComma(Strip(raw), i) ==>
              ParseLine(raw).value == Entry(Strip(Strip(raw)[..i]), Strip(Strip(raw)[i + 1..]))
  {
    var line := Strip(raw);
    if line != [] && line[0] != '#' && ',' in line {
      var i := IndexOf(line, ',').value;
      forall j: nat | FirstComma(line, j) ensures j == i {
      }
    }
  }

  /** The map after one more line of the file has been read. */
  function Absorb(w: map<string, string>, line: string): map<string, string>
  {
    match ParseLine(line)
    case None => w
    case Some(entry) => w[entry.id := entry.reason]
  }

  /** The map the loop builds from the lines `lines`, in file order: each
      accepted line overwrites the entry for its identifier. */
  function WatchlistOf(lines: seq<string>): map<string, string>
  {
    if lines == [] then map[]
    else Absorb(WatchlistOf(lines[..|lines| - 1]), lines[|lines| - 1])
  }

  /** A line adds its own identifier to the map and no other. */
  lemma AbsorbKeys(w: map<string, string>, line: string, id: string)
    ensures id in Absorb(w, line) <==> id in w || (ParseLine(line).Some? && ParseLine(line).value.id == id)
  {
  }

  /** Reading one more line absorbs it into the map read so far. */
  lemma WatchlistOfSnoc(lines: seq<string>, line: string)
    ensures WatchlistOf(lines + [line]) == Absorb(WatchlistOf(lines), line)
  {
    assert (lines + [line])[..|lines|] == lines;
  }

  /** `load_watchlist`: the empty map when the file is missing, otherwise the
      map built line by line. */
  method LoadWatchlist(file: Option<seq<string>>) returns (watchList: map<string, string>)
    ensures file.None? ==> watchList == map[]
    ensures file.Some? ==> watchList == WatchlistOf(file.value)
  {
    watchList := map[];
    if file.None? {
      return;
    }
    var lines := file.value;
    for n := 0 to |lines|
      invariant watchList == WatchlistOf(lines[..n])
    {
      assert lines[..n + 1] == lines[..n] + [lines[n]];
      WatchlistOfSnoc(lines[..n], lines[n]);
      var line := Strip(lines[n]);
      if line == [] || line[0] == '#' {
        continue;
      }
      var comma := IndexOf(line, ',');
      if comma.Some? {
        var i := comma.value;
        watchList := watchList[Strip(line[..i]) := Strip(line[i + 1..])];
      }
    }
    assert lines[..|lines|] == lines;
  }

  /** Line `lines[i]` is accepted and names the identifier `id`. */
  predicate Defines(lines: seq<string>, i: nat, id: string) {
    i < |lines| && ParseLine(lines[i]).Some? && ParseLine(lines[i]).value.id == id
  }

  /** Line `i` is the last line of `lines` that names `id`. */
  ghost predicate LastDefinition(lines: seq<string>, i: nat, id: string) {
    Defines(lines, i, id) && forall j: nat :: i < j ==> !Defines(lines, j, id)
  }

  /** Every identifier in the map comes from a line that names it. */
  lemma {:induction false} WatchlistKeySource(lines: seq<string>, id: string) returns (i: nat)
    requires id in WatchlistOf(lines)
    ensures Defines(lines, i, id)
  {
    var n := |lines| - 1;
    var init := lines[..n];
    AbsorbKeys(WatchlistOf(init), lines[n], id);
    if Defines(lines, n, id) {
      i := n;
    } else {
      i := WatchlistKeySource(init, id);
      assert init[i] == lines[i];
    }
  }

  /** Every identifier some line names is in the map. */
  lemma {:induction false} WatchlistKeyPresent(lines: seq<string>, id: string, i: nat)
    requires Defines(lines, i, id)
    ensures id in WatchlistOf(lines)
  {
    var n := |lines| - 1;
    var init := lines[..n];
    AbsorbKeys(WatchlistOf(init), lines[n], id);
    if i < n {
      assert init[i] == lines[i];
      WatchlistKeyPresent(init, id, i);
    }
  }

  /** An identifier is in the map exactly when some accepted line names it. */
  lemma WatchlistKeys(lines: seq<string>, id: string)
    ensures id in WatchlistOf(lines) <==> exists i: nat :: Defines(lines, i, id)
  {
    if id in WatchlistOf(lines) {
      var i := WatchlistKeySource(lines, id);
    }
    forall i: nat | Defines(lines, i, id) ensures id in WatchlistOf(lines) {
      WatchlistKeyPresent(lines, id, i);
    }
  }

  /** Last write wins: the reason stored for `id` is the one on the last
      line that names `id`, whatever the other lines say. */
  lemma {:induction false} WatchlistLastWriteWins(lines: seq<string>, id: string, i: nat)
    requires LastDefinition(lines, i, id)
    ensures id in WatchlistOf(lines) && WatchlistOf(lines)[id] == ParseLine(lines[i]).value.reason
  {
    var init := lines[..|lines| - 1];
    if i < |lines| - 1 {
      assert !Defines(lines, |lines| - 1, id);
      assert init[i] == lines[i];
      forall j: nat | i < j ensures !Defines(init, j, id) {
        assert !Defines(lines, j, id);
        if j < |init| { assert init[j] == lines[j]; }
      }
      WatchlistLastWriteWins(init, id, i);
    }
  }

  /** A line that is blank, a comment or has no comma can be inserted
      anywhere without changing the loaded map. */
  lemma {:induction false} WatchlistIgnoresLine(before: seq<string>, line: string, after: seq<string>)
    requires ParseLine(line).None?
    ensures WatchlistOf(before + [line] + after) == WatchlistOf(before + after)
  {
    if after == [] {
      assert before + [line] + after == before + [line];
      assert before + after == before;
      WatchlistOfSnoc(before, line);
    } else {
      var init, last := after[..|after| - 1], after[|after| - 1];
      assert before + [line] + after == (before + [line] + init) + [last];
      assert before + after == (before + init) + [last];
      WatchlistIgnoresLine(before, line, init);
      SameLast(before + [line] + init, before + init, last);
    }
  }

  /** Lines read alike stay alike when the same line follows. */
  lemma SameLast(xs: seq<string>, ys: seq<string>, line: string)
    requires WatchlistOf(xs) == WatchlistOf(ys)
    ensures WatchlistOf(xs + [line]) == WatchlistOf(ys + [line])
  {
    WatchlistOfSnoc(xs, line);
    WatchlistOfSnoc(ys, line);
  }

  /** Appending one more accepted line updates exactly its own identifier. */
  lemma AppendLine(lines: seq<string>, line: string)
    requires ParseLine(line).Some?
    ensures WatchlistOf(lines + [line]) == WatchlistOf(lines)[ParseLine(line).value.id := ParseLine(line).value.reason]
  {
    WatchlistOfSnoc(lines, line);
  }

  /** The file the watcher creates when none exists loads as the empty map. */
  lemma CreatedFileIsEmpty()
    ensures WatchlistOf([CreatedHeader]) == map[]
  {
    StripKeepsFirst(CreatedHeader);
    assert ParseLine(CreatedHeader).None?;
    assert [CreatedHeader][..0] == [];
  }
}
