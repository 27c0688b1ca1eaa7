/** The two regular expressions the watcher applies to each log line,
    written out as matchers with Python `re.search` semantics: the
    leftmost start position wins, and at that position the lazy `.*?`
    takes the shortest name that lets the rest of the pattern match.

      join:  `Steam ConnectionID Created: \d+ \((.*?) \[(\d{17})\]\)`
      leave: `Steam Connection Closed: (\d{17})`
*/
module LogPatterns {
  import opened Text

  /** Length of a Steam account identifier, the `\d{17}` of both patterns. */
  const IdLength: nat := 17

  const JoinMarker := "Steam ConnectionID Created: "
  const LeaveMarker := "Steam Connection Closed: "

  /** What a join line yields: group(1) and group(2) of the join pattern. */
  datatype JoinMatch = JoinMatch(name: string, id: string)

  /** No `\n` in `s[from..to]`: the characters `.` may consume. */
  predicate NoNewlineBetween(s: string, from: nat, to: nat)
    requires from <= to <= |s|
  {
    '\n' !in s[from..to]
  }

  /** The tail ` [` 17 digits `])` of the join pattern starts at `e`. */
  predicate JoinTailAt(s: string, e: nat) {
    IsPrefixAt(" [", s, e) && DigitsAt(s, e + 2, IdLength) && IsPrefixAt("])", s, e + 2 + IdLength)
  }

  /** The join pattern matches starting at `p`, with `\d+` covering
      `s[p + |JoinMarker|..k]` and `(.*?)` covering `s[k + 2..e]`. */
  predicate JoinShape(s: string, p: nat, k: nat, e: nat) {
    && IsPrefixAt(JoinMarker, s, p)
    && p + |JoinMarker| < k
    && k + 2 <= e <= |s|
    && (forall j :: p + |JoinMarker| <= j < k ==> IsDigit(s[j]))
    && IsPrefixAt(" (", s, k)
    && NoNewlineBetween(s, k + 2, e)
    && JoinTailAt(s, e)
  }

  /** The end of the run of digits starting at `q`. */
  function DigitRunEnd(s: string, q: nat): (k: nat)
    requires q <= |s|
    decreases |s| - q
    ensures q <= k <= |s|
    ensures forall j :: q <= j < k ==> IsDigit(s[j])
    ensures k == |s| || !IsDigit(s[k])
  {
    if q < |s| && IsDigit(s[q]) then DigitRunEnd(s, q + 1) else q
  }

  /** The lazy `(.*?)`: the first position from `e` on at which the tail
      matches, with no newline in `s[start..]` up to it. */
  function LazyNameEnd(s: string, start: nat, e: nat): (r: Option<nat>)
    requires start <= e <= |s|
    requires NoNewlineBetween(s, start, e)
    decreases |s| - e
    ensures r.Some? ==> e <= r.value <= |s| && JoinTailAt(s, r.value) && NoNewlineBetween(s, start, r.value)
    ensures r.Some? ==> forall x: nat :: e <= x < r.value ==> !JoinTailAt(s, x)
    ensures r.None? ==> forall x: nat :: e <= x <= |s| && NoNewlineBetween(s, start, x) ==> !JoinTailAt(s, x)
  {
    if JoinTailAt(s, e) then Some(e)
    else if e < |s| && s[e] != '\n' then
      assert s[start..e + 1] == s[start..e] + [s[e]];
      LazyNameEnd(s, start, e + 1)
    else
      assert forall x: nat :: e < x <= |s| ==> s[e] in s[start..x] by {
        forall x: nat | e < x <= |s| ensures s[e] in s[start..x] {
          assert s[start..x][e - start] == s[e];
        }
      }
      None
  }

  /** The join pattern anchored at `p`: the digit run and the name end,
      or `None` when the pattern does not match at `p`. */
  function JoinAt(s: string, p: nat): (r: Option<(nat, nat)>)
    ensures r.Some? ==> JoinShape(s, p, r.value.0, r.value.1)
    ensures r.Some? ==> forall k: nat, e: nat :: JoinShape(s, p, k, e) ==> k == r.value.0 && r.value.1 <= e
    ensures r.None? ==> forall k: nat, e: nat :: !JoinShape(s, p, k, e)
  {
    if !IsPrefixAt(JoinMarker, s, p) then None
    else
      var q := p + |JoinMarker|;
      var k := DigitRunEnd(s, q);
      if k == q || !IsPrefixAt(" (", s, k) then
        assert forall k': nat, e: nat :: JoinShape(s, p, k', e) ==> k' == k by {
          forall k': nat, e: nat | JoinShape(s, p, k', e) ensures k' == k {
            JoinDigitsEnd(s, p, k', e, k);
          }
        }
        None
      else
        match LazyNameEnd(s, k + 2, k + 2)
        case None =>
          assert forall k': nat, e: nat :: !JoinShape(s, p, k', e) by {
            forall k': nat, e: nat | JoinShape(s, p, k', e) ensures false {
              JoinDigitsEnd(s, p, k', e, k);
            }
          }
          None
        case Some(e) =>
          assert forall k': nat, e': nat :: JoinShape(s, p, k', e') ==> k' == k && e <= e' by {
            forall k': nat, e': nat | JoinShape(s, p, k', e') ensures k' == k && e <= e' {
              JoinDigitsEnd(s, p, k', e', k);
            }
          }
          Some((k, e))
  }

  /** `\d+` must be followed by the space of ` (`, so it always covers the
      whole digit run: every match at `p` has the same `k`. */
  lemma JoinDigitsEnd(s: string, p: nat, k: nat, e: nat, k0: nat)
    requires JoinShape(s, p, k, e)
    requires p + |JoinMarker| <= k0 <= |s|
    requires forall j :: p + |JoinMarker| <= j < k0 ==> IsDigit(s[j])
    requires k0 == |s| || !IsDigit(s[k0])
    ensures k == k0
  {
    assert s[k] == ' ' by { assert s[k..k + 2][0] == s[k]; }
  }

  predicate HasJoinAt(s: string, p: nat) {
    JoinAt(s, p).Some?
  }

  /** The match `re.search` reports: no match starts further left, and
      none at the same start has a shorter name. */
  ghost predicate FirstJoin(s: string, p: nat, k: nat, e: nat) {
    && JoinShape(s, p, k, e)
    && forall p': nat, k': nat, e': nat :: JoinShape(s, p', k', e') ==> p < p' || (p == p' && e <= e')
  }

  /** `regex_join.search(line)`: group(1) and group(2) of the first match. */
  function MatchJoin(line: string): (r: Option<JoinMatch>)
    ensures r.Some? ==> |r.value.id| == IdLength && AllDigits(r.value.id) && '\n' !in r.value.name
  {
    match FindFrom(line, 0, HasJoinAt)
    case None => None
    case Some(p) =>
      var ke := JoinAt(line, p).value;
      var k, e := ke.0, ke.1;
      Some(JoinMatch(line[k + 2..e], line[e + 2..e + 2 + IdLength]))
  }

  /** There is only one first match. */
  lemma FirstJoinUnique(s: string, p: nat, k: nat, e: nat, p1: nat, k1: nat, e1: nat)
    requires FirstJoin(s, p, k, e) && FirstJoin(s, p1, k1, e1)
    ensures p == p1 && k == k1 && e == e1
  {
    assert JoinShape(s, p1, k1, e1);
    assert JoinShape(s, p, k, e);
    assert s[k] == ' ' by { assert s[k..k + 2][0] == s[k]; }
    JoinDigitsEnd(s, p1, k1, e1, k);
  }

  /** The join matcher finds a match exactly when the pattern occurs, and
      then reports the leftmost one with the shortest name at that start. */
  lemma MatchJoinIsFirstMatch(line: string)
    ensures MatchJoin(line).None? <==> forall p: nat, k: nat, e: nat :: !JoinShape(line, p, k, e)
    ensures MatchJoin(line).Some? ==>
              exists p: nat, k: nat, e: nat :: FirstJoin(line, p, k, e)
                && MatchJoin(line).value == JoinMatch(line[k + 2..e], line[e + 2..e + 2 + IdLength])
  {
    match FindFrom(line, 0, HasJoinAt)
    case None =>
      forall p: nat, k: nat, e: nat | p <= |line| ensures !JoinShape(line, p, k, e) {
        assert !HasJoinAt(line, p);
      }
    case Some(p) =>
      var ke := JoinAt(line, p).value;
      var k, e := ke.0, ke.1;
      forall p': nat, k': nat, e': nat | p' < p ensures !JoinShape(line, p', k', e') {
        assert !HasJoinAt(line, p');
      }
      assert FirstJoin(line, p, k, e);
  }

  /** The groups the join matcher reports, once the match start and the
      ends of the digit run and of the name are known. */
  lemma MatchJoinFrom(s: string, p: nat, k: nat, e: nat)
    requires FindFrom(s, 0, HasJoinAt) == Some(p)
    requires JoinAt(s, p) == Some((k, e))
    ensures MatchJoin(s) == Some(JoinMatch(s[k + 2..e], s[e + 2..e + 2 + IdLength]))
  {
    var m := MatchJoin(s);
    assert m.Some? && m.value.name == s[k + 2..e] && m.value.id == s[e + 2..e + 2 + IdLength];
  }

  /** Whenever the first match is known, the join matcher reports its
      groups. */
  lemma FirstJoinReported(s: string, p: nat, k: nat, e: nat)
    requires FirstJoin(s, p, k, e)
    ensures MatchJoin(s) == Some(JoinMatch(s[k + 2..e], s[e + 2..e + 2 + IdLength]))
  {
    forall q: nat | q < p ensures !HasJoinAt(s, q) {
      var r := JoinAt(s, q);
      assert r.Some? ==> JoinShape(s, q, r.value.0, r.value.1);
    }
    FindFromFirst(s, 0, HasJoinAt, p);
    var r := JoinAt(s, p);
    assert r.Some? && r.value.0 == k && r.value.1 == e;
    assert r == Some((k, e));
    MatchJoinFrom(s, p, k, e);
  }

  /** The leave pattern matches starting at `p`. */
  predicate LeaveAt(s: string, p: nat) {
    IsPrefixAt(LeaveMarker, s, p) && DigitsAt(s, p + |LeaveMarker|, IdLength)
  }

  /** `regex_leave.search(line)`: group(1) of the first match. */
  function MatchLeave(line: string): (r: Option<string>)
    ensures r.Some? ==> |r.value| == IdLength && AllDigits(r.value)
  {
    match FindFrom(line, 0, LeaveAt)
    case None => None
    case Some(p) => Some(line[p + |LeaveMarker|..p + |LeaveMarker| + IdLength])
  }

  /** The leave matcher finds a match exactly when the pattern occurs, and
      then reports the 17 digits after the leftmost occurrence. */
  lemma MatchLeaveIsFirstMatch(line: string)
    ensures MatchLeave(line).None? <==> forall p: nat :: !LeaveAt(line, p)
    ensures MatchLeave(line).Some? ==>
              exists p: nat :: && LeaveAt(line, p)
                               && MatchLeave(line).value == line[p + |LeaveMarker|..p + |LeaveMarker| + IdLength]
                               && forall q: nat :: q < p ==> !LeaveAt(line, q)
  {
    match FindFrom(line, 0, LeaveAt)
    case None =>
    case Some(p) =>
      assert LeaveAt(line, p);
  }

  /** A log line carrying a join record: whatever precedes the record, the
      record itself, and whatever follows it. */
  function JoinLine(pre: string, connection: string, name: string, id: string, post: string): string {
    pre + (JoinMarker + (connection + (" (" + (name + ((" [" + id + "])") + post)))))
  }

  /** No match of either pattern can start inside `pre` when `pre` has no
      `S`, the first letter of both markers. */
  lemma NoMarkerBefore(marker: string, s: string, pre: string, q: nat)
    requires marker != [] && marker[0] == 'S' && 'S' !in pre
    requires |pre| <= |s| && s[..|pre|] == pre && q < |pre|
    ensures !IsPrefixAt(marker, s, q)
  {
    assert s[q] == s[..|pre|][q];
    assert pre[q] in pre;
    if q + |marker| <= |s| {
      assert s[q..q + |marker|][0] == s[q];
    }
  }

  /** A digit string found in `s` is a digit run of `s`. */
  lemma DigitsFound(t: string, s: string, p: nat)
    requires IsPrefixAt(t, s, p) && AllDigits(t)
    ensures DigitsAt(s, p, |t|)
  {
    forall j | p <= j < p + |t| ensures IsDigit(s[j]) {
      assert s[j] == s[p..p + |t|][j - p];
    }
  }

  /** ` [` + 17 digits + `])` found at `e` is the tail of the join pattern. */
  lemma TailFound(s: string, e: nat, id: string)
    requires |id| == IdLength && AllDigits(id) && IsPrefixAt(" [" + id + "])", s, e)
    ensures JoinTailAt(s, e) && s[e + 2..e + 2 + IdLength] == id
  {
    var tail := " [" + id + "])";
    assert s[e..e + |tail|] == tail;
    assert s[e..e + 2] == tail[..2] == " [";
    assert tail[2..2 + |id|] == id;
    assert s[e + 2..e + 2 + IdLength] == tail[2..2 + IdLength];
    assert s[e + 2 + IdLength..e + 4 + IdLength] == tail[2 + IdLength..] == "])";
    DigitsFound(id, s, e + 2);
  }

  /** Where the marker and the connection number stand in a join line. */
  lemma JoinLineHead(pre: string, connection: string, name: string, id: string, post: string)
    ensures var s := JoinLine(pre, connection, name, id, post);
      && IsPrefixAt(JoinMarker, s, |pre|) && IsPrefixAt(connection, s, |pre| + |JoinMarker|)
      && s[..|pre|] == pre
  {
    var r2 := connection + (" (" + (name + ((" [" + id + "])") + post)));
    var r1 := JoinMarker + r2;
    PrefixAtStart(JoinMarker, r2);
    PrefixShift(JoinMarker, pre, r1, 0);
    PrefixShift(connection, JoinMarker, r2, 0);
    PrefixShift(connection, pre, r1, |JoinMarker|);
    assert (pre + r1)[..|pre|] == pre;
  }

  /** Where ` (`, the name and the tail stand in a join line. */
  lemma JoinLineBody(pre: string, connection: string, name: string, id: string, post: string)
    ensures var s := JoinLine(pre, connection, name, id, post);
      var k := |pre| + |JoinMarker| + |connection|;
      && IsPrefixAt(" (", s, k) && IsPrefixAt(name, s, k + 2)
      && IsPrefixAt(" [" + id + "])", s, k + 2 + |name|)
  {
    var tail := " [" + id + "])";
    var r4 := name + (tail + post);
    var r3 := " (" + r4;
    var h := pre + (JoinMarker + connection);
    assert JoinLine(pre, connection, name, id, post) == h + r3;
    assert |h| == |pre| + |JoinMarker| + |connection|;
    PrefixAtStart(" (", r4);
    PrefixShift(" (", h, r3, 0);
    PrefixAtStart(name, tail + post);
    PrefixShift(name, " (", r4, 0);
    PrefixShift(name, h, r3, 2);
    PrefixAtStart(tail, post);
    PrefixShift(tail, name, tail + post, 0);
    PrefixShift(tail, " (", r4, |name|);
    PrefixShift(tail, h, r3, 2 + |name|);
  }

  /** The record in a join line has the shape of the pattern, with the
      digit run ending at `k` and the name ending at `e`. */
  lemma JoinLineShape(pre: string, connection: string, name: string, id: string, post: string)
    requires connection != [] && AllDigits(connection)
    requires |id| == IdLength && AllDigits(id) && '\n' !in name
    ensures var s := JoinLine(pre, connection, name, id, post);
      var k := |pre| + |JoinMarker| + |connection|;
      var e := k + 2 + |name|;
      && JoinShape(s, |pre|, k, e)
      && s[..|pre|] == pre && s[k + 2..e] == name && s[e + 2..e + 2 + IdLength] == id
      && IsPrefixAt(" [" + id + "])", s, e)
  {
    var s := JoinLine(pre, connection, name, id, post);
    var p := |pre|;
    var k := p + |JoinMarker| + |connection|;
    var e := k + 2 + |name|;
    JoinLineHead(pre, connection, name, id, post);
    JoinLineBody(pre, connection, name, id, post);
    DigitsFound(connection, s, p + |JoinMarker|);
    TailFound(s, e, id);
  }

  /** Inside a join line the lazy name cannot stop early when the name
      holds no ` [`: every candidate tail before the real one lacks its
      opening ` [`. */
  lemma NoEarlierTail(s: string, k: nat, name: string, id: string, x: nat)
    requires k + 2 + |name| <= |s| && s[k + 2..k + 2 + |name|] == name
    requires forall i: nat :: !IsPrefixAt(" [", name, i)
    requires |id| == IdLength && AllDigits(id) && IsPrefixAt(" [" + id + "])", s, k + 2 + |name|)
    requires k + 2 <= x < k + 2 + |name|
    ensures !JoinTailAt(s, x)
  {
    var e := k + 2 + |name|;
    if x + 2 <= e {
      var d := x - k - 2;
      assert s[x] == name[d] && s[x + 1] == name[d + 1];
      assert s[x..x + 2] == [s[x], s[x + 1]] && name[d..d + 2] == [name[d], name[d + 1]];
      assert !IsPrefixAt(" [", name, d);
    } else {
      assert s[e] == (" [" + id + "])")[0] == ' ' by {
        assert s[e..e + |" [" + id + "])"|][0] == s[e];
      }
      assert s[x..x + 2][1] == s[e];
    }
  }

  /** Round trip of the log format: the join matcher reads back the name and
      identifier of a join record, for any digits before the name, any
      text after the record, and any prefix without an `S`. The name must
      hold no newline (`.` does not cross one) and no ` [`, which could open
      an earlier tail. */
  lemma {:induction false} JoinLineRoundTrip(pre: string, connection: string, name: string, id: string, post: string)
    requires 'S' !in pre && connection != [] && AllDigits(connection)
    requires |id| == IdLength && AllDigits(id) && '\n' !in name
    requires forall i: nat :: !IsPrefixAt(" [", name, i)
    ensures MatchJoin(JoinLine(pre, connection, name, id, post)) == Some(JoinMatch(name, id))
  {
    var s := JoinLine(pre, connection, name, id, post);
    var p := |pre|;
    var k := p + |JoinMarker| + |connection|;
    var e := k + 2 + |name|;
    JoinLineShape(pre, connection, name, id, post);
    assert s[k] == ' ' by { assert s[k..k + 2][0] == s[k]; }
    forall p': nat, k': nat, e': nat | JoinShape(s, p', k', e') ensures p < p' || (p == p' && e <= e') {
      if p' < p {
        NoMarkerBefore(JoinMarker, s, pre, p');
      } else if p' == p {
        JoinDigitsEnd(s, p, k', e', k);
        if e' < e {
          NoEarlierTail(s, k, name, id, e');
        }
      }
    }
    assert FirstJoin(s, p, k, e);
    FirstJoinReported(s, p, k, e);
  }

  /** The leave matcher reads back the 17 digits after the leave marker, for
      any prefix without an `S` and any text after them. */
  lemma LeaveLineRoundTrip(pre: string, id: string, post: string)
    requires 'S' !in pre && |id| == IdLength && AllDigits(id)
    ensures MatchLeave(pre + LeaveMarker + id + post) == Some(id)
  {
    var s := pre + LeaveMarker + id + post;
    var p := |pre|;
    OccursInMiddle(pre, LeaveMarker, id + post);
    OccursInMiddle(pre + LeaveMarker, id, post);
    forall j | p + |LeaveMarker| <= j < p + |LeaveMarker| + IdLength ensures IsDigit(s[j]) {
      assert s[j] == id[j - p - |LeaveMarker|];
    }
    assert s[..p] == pre;
    forall q: nat | q < p ensures !LeaveAt(s, q) {
      NoMarkerBefore(LeaveMarker, s, pre, q);
    }
    FindFromFirst(s, 0, LeaveAt, p);
  }
}
