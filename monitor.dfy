/** The per-line body of the watcher's monitoring loop: the two pattern
    checks, the `known_players` correlation map, and the alert policy that
    picks a colour, a message and a tone pattern for each event. */
module Monitor {
  import opened Text
  import opened LogPatterns

  /** One `winsound.Beep(frequency, duration)` call: hertz and milliseconds. */
  datatype Tone = Tone(frequency: nat, duration: nat)

  datatype EventKind = Joined | Left

  /** What one alert shows and plays: the ANSI colour code and the message
      handed to `log_print`, and the tones `play_alert_sound` plays. */
  datatype Notification = Notification(
    kind: EventKind, id: string, name: string, watched: bool,
    colour: string, message: string, tones: seq<Tone>)

  const Red := "\U{1B}[31m"
  const Cyan := "\U{1B}[96m"
  const Yellow := "\U{1B}[33m"
  const Grey := "\U{1B}[90m"

  /** The name shown for a leave whose identifier no join has named. */
  const UnknownName := "Unknown"

  /** `play_alert_sound(is_danger)`: three tones for danger, one otherwise. */
  function AlertSound(isDanger: bool): seq<Tone>
  {
    if isDanger then [Tone(1000, 200), Tone(1000, 200), Tone(2000, 500)]
    else [Tone(800, 300)]
  }

  /** The alert for one event: watched identifiers get a warning colour,
      a message carrying the watchlist reason, and a sound; others get an
      informational line and no sound. */
  function Alert(kind: EventKind, id: string, name: string, watchList: map<string, string>): (n: Notification)
    ensures n.kind == kind && n.id == id && n.name == name && n.watched == (id in watchList)
    ensures n.tones != [] <==> id in watchList
  {
    match kind
    case Joined =>
      if id in watchList then
        Notification(kind, id, name, true, Red,
          "!!! WARNING !!! " + name + " (" + watchList[id] + ") が入室しました [ID:" + id + "]", AlertSound(true))
      else
        Notification(kind, id, name, false, Cyan, "[+] Join: " + name + " [ID:" + id + "]", [])
    case Left =>
      if id in watchList then
        Notification(kind, id, name, true, Yellow,
          "!!! LEAVE !!! 警戒対象 " + name + " (" + watchList[id] + ") が退室しました", AlertSound(false))
      else
        Notification(kind, id, name, false, Grey, "[-] Left: " + name + " [ID:" + id + "]", [])
  }

  /** Every alert message names the player; a watched player's message
      gives the watchlist reason; every message except the watched leave
      gives the identifier. */
  lemma AlertMessage(kind: EventKind, id: string, name: string, watchList: map<string, string>)
    ensures var message := Alert(kind, id, name, watchList).message;
      && Occurs(name, message)
      && (id in watchList ==> Occurs(watchList[id], message))
      && (kind == Joined || id !in watchList ==> Occurs(id, message))
  {
    var message := Alert(kind, id, name, watchList).message;
    match kind
    case Joined =>
      if id in watchList {
        var reason := watchList[id];
        OccursIn3(message, "!!! WARNING !!! ", name, " (" + reason + ") が入室しました [ID:" + id + "]");
        OccursIn3(message, "!!! WARNING !!! " + name + " (", reason, ") が入室しました [ID:" + id + "]");
        OccursIn3(message, "!!! WARNING !!! " + name + " (" + reason + ") が入室しました [ID:", id, "]");
      } else {
        OccursIn3(message, "[+] Join: ", name, " [ID:" + id + "]");
        OccursIn3(message, "[+] Join: " + name + " [ID:", id, "]");
      }
    case Left =>
      if id in watchList {
        var reason := watchList[id];
        OccursIn3(message, "!!! LEAVE !!! 警戒対象 ", name, " (" + reason + ") が退室しました");
        OccursIn3(message, "!!! LEAVE !!! 警戒対象 " + name + " (", reason, ") が退室しました");
      } else {
        OccursIn3(message, "[-] Left: ", name, " [ID:" + id + "]");
        OccursIn3(message, "[-] Left: " + name + " [ID:", id, "]");
      }
  }

  /** The four presentations, by event kind and by whether the identifier
      is on the watchlist. */
  lemma DecisionTable(kind: EventKind, id: string, name: string, watchList: map<string, string>)
    ensures var n := Alert(kind, id, name, watchList);
      && (kind == Joined && id in watchList ==>
            n.colour == Red && n.tones == [Tone(1000, 200), Tone(1000, 200), Tone(2000, 500)])
      && (kind == Joined && id !in watchList ==> n.colour == Cyan && n.tones == [])
      && (kind == Left && id in watchList ==> n.colour == Yellow && n.tones == [Tone(800, 300)])
      && (kind == Left && id !in watchList ==> n.colour == Grey && n.tones == [])
  {
  }

  /** `known_players.get(p_id, "Unknown")`. */
  function DisplayName(known: map<string, string>, id: string): string
  {
    if id in known then known[id] else UnknownName
  }

  /** What the two patterns find in one log line. */
  datatype LineMatch = LineMatch(join: Option<JoinMatch>, leave: Option<string>)

  /** `regex_join.search(line)` and `regex_leave.search(line)`, both applied. */
  function Extract(line: string): (m: LineMatch)
    ensures m.join.Some? ==> |m.join.value.id| == IdLength && AllDigits(m.join.value.id)
    ensures m.leave.Some? ==> |m.leave.value| == IdLength && AllDigits(m.leave.value)
  {
    LineMatch(MatchJoin(line), MatchLeave(line))
  }

  /** The matches of every line, in order. */
  function ExtractAll(lines: seq<string>): (ms: seq<LineMatch>)
    ensures |ms| == |lines|
    ensures forall i :: 0 <= i < |lines| ==> ms[i] == Extract(lines[i])
  {
    seq(|lines|, i requires 0 <= i < |lines| => Extract(lines[i]))
  }

  /** The correlation map after some lines, and the alerts they raised. */
  datatype Outcome = Outcome(known: map<string, string>, alerts: seq<Notification>)

  /** The loop body for one log line, from the correlation map before it to
      the map after it and the alerts it raises. The join check and the
      leave check are two independent `if`s: a line matching both raises the
      join alert first, and the leave alert then sees the name just stored. */
  function Step(known: map<string, string>, watchList: map<string, string>, m: LineMatch): Outcome
  {
    var afterJoin :=
      match m.join
      case None => Outcome(known, [])
      case Some(j) => Outcome(known[j.id := j.name], [Alert(Joined, j.id, j.name, watchList)]);
    match m.leave
    case None => afterJoin
    case Some(id) =>
      Outcome(afterJoin.known, afterJoin.alerts + [Alert(Left, id, DisplayName(afterJoin.known, id), watchList)])
  }

  /** The loop over the lines whose matches are `ms`, in order. */
  function Replay(known: map<string, string>, watchList: map<string, string>, ms: seq<LineMatch>): Outcome
  {
    if ms == [] then Outcome(known, [])
    else
      var before := Replay(known, watchList, ms[..|ms| - 1]);
      var step := Step(before.known, watchList, ms[|ms| - 1]);
      Outcome(step.known, before.alerts + step.alerts)
  }

  /** The monitoring loop's state: the loaded watchlist and the names seen
      in join lines since the start. */
  class LobbyMonitor {
    const watchList: map<string, string>
    var knownPlayers: map<string, string>

    constructor (watchList: map<string, string>)
      ensures this.watchList == watchList && knownPlayers == map[]
    {
      this.watchList := watchList;
      knownPlayers := map[];
    }

    /** One pass of `for line in loglines`. */
    method ProcessLine(line: string) returns (notes: seq<Notification>)
      modifies this
      ensures knownPlayers == Step(old(knownPlayers), watchList, Extract(line)).known
      ensures notes == Step(old(knownPlayers), watchList, Extract(line)).alerts
      ensures MatchJoin(line).Some? ==>
                knownPlayers == old(knownPlayers)[MatchJoin(line).value.id := MatchJoin(line).value.name]
      ensures MatchJoin(line).None? ==> knownPlayers == old(knownPlayers)
      ensures MatchJoin(line).None? && MatchLeave(line).None? ==> notes == []
      ensures MatchLeave(line).Some? ==>
                && |notes| > 0
                && notes[|notes| - 1] == Alert(Left, MatchLeave(line).value,
                                               DisplayName(knownPlayers, MatchLeave(line).value), watchList)
    {
      notes := [];
      var joined := MatchJoin(line);
      if joined.Some? {
        var name, id := joined.value.name, joined.value.id;
        knownPlayers := knownPlayers[id := name];
        notes := notes + [Alert(Joined, id, name, watchList)];
      }
      var left := MatchLeave(line);
      if left.Some? {
        var id := left.value;
        var name := DisplayName(knownPlayers, id);
        notes := notes + [Alert(Left, id, name, watchList)];
      }
      var m := Extract(line);
      assert m.join == joined && m.leave == left;
      StepKnown(old(knownPlayers), watchList, m);
      StepAlerts(old(knownPlayers), watchList, m);
    }

    /** The monitoring loop over the lines the tailer delivers, in order. */
    method Run(lines: seq<string>) returns (notes: seq<Notification>)
      modifies this
      ensures knownPlayers == Replay(old(knownPlayers), watchList, ExtractAll(lines)).known
      ensures notes == Replay(old(knownPlayers), watchList, ExtractAll(lines)).alerts
    {
      notes := [];
      for n := 0 to |lines|
        invariant knownPlayers == Replay(old(knownPlayers), watchList, ExtractAll(lines[..n])).known
        invariant notes == Replay(old(knownPlayers), watchList, ExtractAll(lines[..n])).alerts
      {
        assert ExtractAll(lines[..n + 1])[..n] == ExtractAll(lines[..n]);
        var latest := ProcessLine(lines[n]);
        notes := notes + latest;
      }
      assert lines[..|lines|] == lines;
    }
  }

  /** Line `i` of the matches `ms` is a join for `id`. */
  predicate JoinsAt(ms: seq<LineMatch>, i: nat, id: string) {
    i < |ms| && ms[i].join.Some? && ms[i].join.value.id == id
  }

  /** Only the join match of a line writes the correlation map. */
  lemma StepKnown(known: map<string, string>, watchList: map<string, string>, m: LineMatch)
    ensures m.join.None? ==> Step(known, watchList, m).known == known
    ensures m.join.Some? ==> Step(known, watchList, m).known == known[m.join.value.id := m.join.value.name]
  {
  }

  /** A line raises no alert unless it matches, and a leave match raises the
      last alert, under the name known after the line's own join. */
  lemma StepAlerts(known: map<string, string>, watchList: map<string, string>, m: LineMatch)
    ensures m.join.None? && m.leave.None? ==> Step(known, watchList, m).alerts == []
    ensures m.leave.Some? ==>
              var step := Step(known, watchList, m);
              && |step.alerts| > 0
              && step.alerts[|step.alerts| - 1] == Alert(Left, m.leave.value, DisplayName(step.known, m.leave.value), watchList)
  {
  }

  /** A line that matches both patterns for the same player raises the join
      alert and then the leave alert, and the leave alert already carries
      the name the join stored, whatever was known before. */
  lemma JoinAndLeaveOnOneLine(known: map<string, string>, watchList: map<string, string>, id: string, name: string)
    ensures var step := Step(known, watchList, LineMatch(Some(JoinMatch(name, id)), Some(id)));
      && step.known == known[id := name]
      && step.alerts == [Alert(Joined, id, name, watchList), Alert(Left, id, name, watchList)]
  {
  }

  /** An identifier no line joins keeps what it had: leave lines never
      remove a name and never add one. */
  lemma {:induction false} ReplayUnjoinedUnchanged(known: map<string, string>, watchList: map<string, string>,
                                                   ms: seq<LineMatch>, id: string)
    requires forall i: nat :: !JoinsAt(ms, i, id)
    ensures id in Replay(known, watchList, ms).known <==> id in known
    ensures id in known ==> Replay(known, watchList, ms).known[id] == known[id]
  {
    if ms != [] {
      var n := |ms| - 1;
      forall i: nat ensures !JoinsAt(ms[..n], i, id) {
        assert !JoinsAt(ms, i, id);
      }
      ReplayUnjoinedUnchanged(known, watchList, ms[..n], id);
      assert !JoinsAt(ms, n, id);
      StepKnown(Replay(known, watchList, ms[..n]).known, watchList, ms[n]);
    }
  }

  /** The name stored for an identifier is the one from its last join line. */
  lemma {:induction false} ReplayLastJoinWins(known: map<string, string>, watchList: map<string, string>,
                                              ms: seq<LineMatch>, id: string, i: nat)
    requires JoinsAt(ms, i, id) && forall j: nat :: i < j ==> !JoinsAt(ms, j, id)
    ensures id in Replay(known, watchList, ms).known
    ensures Replay(known, watchList, ms).known[id] == ms[i].join.value.name
  {
    var n := |ms| - 1;
    StepKnown(Replay(known, watchList, ms[..n]).known, watchList, ms[n]);
    if i < n {
      assert !JoinsAt(ms, n, id);
      forall j: nat | i < j ensures !JoinsAt(ms[..n], j, id) {
        assert !JoinsAt(ms, j, id);
      }
      ReplayLastJoinWins(known, watchList, ms[..n], id, i);
    }
  }

  /** Names are never forgotten: every identifier known before a run of
      lines is still known after it. */
  lemma {:induction false} ReplayKeepsKnown(known: map<string, string>, watchList: map<string, string>,
                                            ms: seq<LineMatch>)
    ensures known.Keys <= Replay(known, watchList, ms).known.Keys
  {
    if ms != [] {
      ReplayKeepsKnown(known, watchList, ms[..|ms| - 1]);
    }
  }

  /** Sound is played for watched identifiers only, and for every alert
      about one. */
  lemma {:induction false} ReplaySoundOnlyForWatched(known: map<string, string>, watchList: map<string, string>,
                                                     ms: seq<LineMatch>)
    ensures forall n :: n in Replay(known, watchList, ms).alerts ==> (n.tones != [] <==> n.id in watchList)
  {
    if ms != [] {
      ReplaySoundOnlyForWatched(known, watchList, ms[..|ms| - 1]);
    }
  }

  /** Lines that match neither pattern change nothing and raise nothing,
      wherever they stand. */
  lemma {:induction false} ReplaySkipsUnmatched(known: map<string, string>, watchList: map<string, string>,
                                                before: seq<LineMatch>, after: seq<LineMatch>)
    ensures Replay(known, watchList, before + [LineMatch(None, None)] + after)
            == Replay(known, watchList, before + after)
  {
    var noise := LineMatch(None, None);
    if after == [] {
      assert (before + [noise])[..|before|] == before;
      assert before + [noise] + after == before + [noise];
      assert before + after == before;
    } else {
      var init := after[..|after| - 1];
      ReplaySkipsUnmatched(known, watchList, before, init);
      assert (before + [noise] + after)[..|before + [noise] + after| - 1] == before + [noise] + init;
      assert (before + after)[..|before + after| - 1] == before + init;
    }
  }

  /** Two lines in a row: the second is read with the map the first left. */
  lemma ReplayPair(known: map<string, string>, watchList: map<string, string>, a: LineMatch, b: LineMatch)
    ensures var first := Step(known, watchList, a);
      var second := Step(first.known, watchList, b);
      Replay(known, watchList, [a] + [b]) == Outcome(second.known, first.alerts + second.alerts)
  {
    var first := Step(known, watchList, a);
    assert ([a] + [b])[..1] == [a];
    assert [a][..0] == [];
    assert [] + first.alerts == first.alerts;
    assert Replay(known, watchList, [a]) == Outcome(first.known, first.alerts);
  }

  /** A join for a player, a line matching nothing and a leave for the
      same player raise the join alert and then the leave alert, the leave
      under the name the join stored. */
  lemma JoinNoiseLeave(watchList: map<string, string>, id: string, name: string)
    ensures var join, leave := LineMatch(Some(JoinMatch(name, id)), None), LineMatch(None, Some(id));
      Replay(map[], watchList, [join] + [LineMatch(None, None)] + [leave]).alerts
        == [Alert(Joined, id, name, watchList), Alert(Left, id, name, watchList)]
  {
    var join, leave := LineMatch(Some(JoinMatch(name, id)), None), LineMatch(None, Some(id));
    ReplaySkipsUnmatched(map[], watchList, [join], [leave]);
    ReplayPair(map[], watchList, join, leave);
    var first := Step(map[], watchList, join);
    StepKnown(map[], watchList, join);
    assert first.known == map[id := name];
    assert first.alerts == [Alert(Joined, id, name, watchList)];
    assert Step(first.known, watchList, leave).alerts == [Alert(Left, id, name, watchList)];
  }

  /** A join line for a watched player, an unrelated line and a leave line
      for the same player raise exactly two alerts: the red warning with
      the three-tone sound, then the yellow leave alert with the single
      tone, both naming the player and the watchlist reason. */
  lemma WatchedJoinThenLeave(watchList: map<string, string>, joinLine: string, otherLine: string,
                             leaveLine: string, id: string, name: string)
    requires id in watchList
    requires Extract(joinLine) == LineMatch(Some(JoinMatch(name, id)), None)
    requires Extract(otherLine) == LineMatch(None, None)
    requires Extract(leaveLine) == LineMatch(None, Some(id))
    ensures var notes := Replay(map[], watchList, ExtractAll([joinLine, otherLine, leaveLine])).alerts;
      && notes == [Alert(Joined, id, name, watchList), Alert(Left, id, name, watchList)]
      && notes[0].colour == Red && notes[1].colour == Yellow
      && notes[0].tones == AlertSound(true) && notes[1].tones == AlertSound(false)
      && Occurs(name, notes[1].message) && Occurs(watchList[id], notes[1].message)
  {
    var join, noise, leave := Extract(joinLine), Extract(otherLine), Extract(leaveLine);
    assert ExtractAll([joinLine, otherLine, leaveLine]) == [join] + [noise] + [leave];
    JoinNoiseLeave(watchList, id, name);
    DecisionTable(Joined, id, name, watchList);
    DecisionTable(Left, id, name, watchList);
    AlertMessage(Left, id, name, watchList);
  }

  /** A leave line for an identifier no earlier line joined is still
      reported, under the name "Unknown". */
  lemma LeaveWithoutJoin(watchList: map<string, string>, line: string, id: string)
    requires Extract(line) == LineMatch(None, Some(id))
    ensures Replay(map[], watchList, ExtractAll([line])).alerts == [Alert(Left, id, UnknownName, watchList)]
  {
    assert ExtractAll([line]) == [Extract(line)];
    assert [Extract(line)][..0] == [];
  }
}
