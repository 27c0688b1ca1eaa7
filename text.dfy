/** Character classes, trimming and substring search shared by the watcher
    and the watchlist editor. Python strings are modelled as `string`
    (a sequence of Unicode scalar values). */
module Text {

  datatype Option<+T> = None | Some(value: T)

  /** Python's `str.isspace()`: the 29 code points Python treats as
      whitespace, which is the set `str.strip()` removes. */
  predicate IsSpace(c: char) {
    ('\t' <= c <= '\r') || ('\U{1C}' <= c <= ' ') || c == '\U{85}' || c == '\U{A0}'
    || c == '\U{1680}' || ('\U{2000}' <= c <= '\U{200A}') || c == '\U{2028}' || c == '\U{2029}'
    || c == '\U{202F}' || c == '\U{205F}' || c == '\U{3000}'
  }

  /** A decimal digit, as matched by `\d` (ASCII digits only in this model). */
  predicate IsDigit(c: char) {
    '0' <= c <= '9'
  }

  predicate AllDigits(s: string) {
    forall k :: 0 <= k < |s| ==> IsDigit(s[k])
  }

  predicate AllSpace(s: string) {
    forall k :: 0 <= k < |s| ==> IsSpace(s[k])
  }

  /** No leading and no trailing whitespace. */
  predicate Unpadded(s: string) {
    s == [] || (!IsSpace(s[0]) && !IsSpace(s[|s| - 1]))
  }

  /** `s.lstrip()`: `s` without its leading whitespace. */
  function TrimStart(s: string): (r: string)
    ensures |r| <= |s|
    ensures r == [] || !IsSpace(r[0])
    ensures r != [] ==> r[|r| - 1] == s[|s| - 1]
  {
    if s != [] && IsSpace(s[0]) then TrimStart(s[1..]) else s
  }

  /** `s.rstrip()`: `s` without its trailing whitespace. */
  function TrimEnd(s: string): (r: string)
    ensures |r| <= |s|
    ensures r == [] || !IsSpace(r[|r| - 1])
    ensures r != [] ==> r[0] == s[0]
  {
    if s != [] && IsSpace(s[|s| - 1]) then TrimEnd(s[..|s| - 1]) else s
  }

  /** `lstrip()` removes a prefix made only of whitespace. */
  lemma {:induction false} TrimStartIsSuffix(s: string)
    ensures TrimStart(s) == s[|s| - |TrimStart(s)|..]
    ensures AllSpace(s[..|s| - |TrimStart(s)|])
  {
    if s != [] && IsSpace(s[0]) {
      TrimStartIsSuffix(s[1..]);
      assert s[1..][|s| - 1 - |TrimStart(s)|..] == s[|s| - |TrimStart(s)|..];
      assert forall k :: 0 < k < |s| - |TrimStart(s)| ==> s[k] == s[1..][k - 1];
    }
  }

  /** `rstrip()` removes a suffix made only of whitespace. */
  lemma {:induction false} TrimEndIsPrefix(s: string)
    ensures TrimEnd(s) == s[..|TrimEnd(s)|]
    ensures AllSpace(s[|TrimEnd(s)|..])
  {
    if s != [] && IsSpace(s[|s| - 1]) {
      TrimEndIsPrefix(s[..|s| - 1]);
      assert s[..|s| - 1][..|TrimEnd(s)|] == s[..|TrimEnd(s)|];
      assert forall k :: |TrimEnd(s)| <= k < |s| - 1 ==> s[k] == s[..|s| - 1][k];
    }
  }

  /** `s.strip()`: `s` with whitespace removed at both ends. */
  function Strip(s: string): (r: string)
    ensures |r| <= |s| && Unpadded(r)
  {
    TrimEnd(TrimStart(s))
  }

  /** What `strip()` removes is whitespace at the two ends and nothing else:
      the result is the slice `s[i..i + |r|]` with only whitespace around it. */
  lemma StripIsSlice(s: string) returns (i: nat)
    ensures i + |Strip(s)| <= |s| && Strip(s) == s[i..i + |Strip(s)|]
    ensures AllSpace(s[..i]) && AllSpace(s[i + |Strip(s)|..])
  {
    var t := TrimStart(s);
    var r := TrimEnd(t);
    TrimStartIsSuffix(s);
    TrimEndIsPrefix(t);
    i := |s| - |t|;
    assert s[i..i + |r|] == r;
    assert s[i + |r|..] == t[|r|..];
  }

  lemma StripUnpadded(s: string)
    requires Unpadded(s)
    ensures Strip(s) == s
  {
    assert TrimStart(s) == s;
  }

  /** A string that starts with a non-space keeps its first character. */
  lemma StripKeepsFirst(s: string)
    requires s != [] && !IsSpace(s[0])
    ensures Strip(s) != [] && Strip(s)[0] == s[0]
  {
    assert TrimStart(s) == s;
    TrimEndIsPrefix(s);
  }

  /** A leading whitespace character makes no difference to `strip()`. */
  lemma StripDropsLeadingSpace(c: char, s: string)
    requires IsSpace(c)
    ensures Strip([c] + s) == Strip(s)
  {
    assert ([c] + s)[1..] == s;
  }

  /** A trailing whitespace character makes no difference to `strip()`
      when the text before it starts with a non-space. */
  lemma StripDropsTrailingSpace(s: string, c: char)
    requires s != [] && !IsSpace(s[0]) && IsSpace(c)
    ensures Strip(s + [c]) == Strip(s)
  {
    assert TrimStart(s + [c]) == s + [c];
    assert (s + [c])[..|s|] == s;
  }

  /** `pat` occurs in `s` starting at index `p`. */
  predicate IsPrefixAt(pat: string, s: string, p: nat) {
    p + |pat| <= |s| && s[p..p + |pat|] == pat
  }

  /** Python's `pat in s`. */
  ghost predicate Occurs(pat: string, s: string) {
    exists p: nat :: IsPrefixAt(pat, s, p)
  }

  /** `n` digits start at index `p` of `s` (the regular expression `\d{n}` matched at `p`). */
  predicate DigitsAt(s: string, p: nat, n: nat) {
    p + n <= |s| && forall k :: p <= k < p + n ==> IsDigit(s[k])
  }

  /** The leftmost position `q` in `from..|s|` at which `at(s, q)` holds:
      the search a regular expression or `str.find` performs. */
  function FindFrom(s: string, from: nat, at: (string, nat) -> bool): (r: Option<nat>)
    decreases |s| + 1 - from
    ensures r.Some? ==> from <= r.value <= |s| && at(s, r.value)
    ensures r.Some? ==> forall q: nat :: from <= q < r.value ==> !at(s, q)
    ensures r.None? ==> forall q: nat :: from <= q <= |s| ==> !at(s, q)
  {
    if from > |s| then None
    else if at(s, from) then Some(from)
    else FindFrom(s, from + 1, at)
  }

  /** The search stops at the first position where `at` holds. */
  lemma FindFromFirst(s: string, from: nat, at: (string, nat) -> bool, p: nat)
    requires from <= p <= |s| && at(s, p)
    requires forall q: nat :: from <= q < p ==> !at(s, q)
    ensures FindFrom(s, from, at) == Some(p)
  {
  }

  /** `str.find(c)` for a single character, as an index strictly inside `s`. */
  function IndexOf(s: string, c: char): (r: Option<nat>)
    ensures r.Some? ==> r.value < |s| && s[r.value] == c && c !in s[..r.value]
    ensures r.None? <==> c !in s
  {
    if s == [] then None
    else if s[0] == c then Some(0)
    else
      match IndexOf(s[1..], c)
      case None => None
      case Some(i) =>
        assert s[..i + 1] == [s[0]] + s[1..][..i];
        Some(i + 1)
  }

  /** A text is found at the start of any text it begins. */
  lemma PrefixAtStart(t: string, b: string)
    ensures IsPrefixAt(t, t + b, 0)
  {
    assert (t + b)[..|t|] == t;
  }

  /** Putting text in front moves every occurrence right by its length. */
  lemma PrefixShift(t: string, a: string, b: string, i: nat)
    requires IsPrefixAt(t, b, i)
    ensures IsPrefixAt(t, a + b, |a| + i)
  {
    assert (a + b)[|a| + i..|a| + i + |t|] == b[i..i + |t|];
  }

  /** `t` occurs in any text that has it as a middle part. */
  lemma OccursInMiddle(a: string, t: string, b: string)
    ensures IsPrefixAt(t, a + t + b, |a|) && Occurs(t, a + t + b)
  {
    assert (a + t + b)[|a|..|a| + |t|] == t;
    assert IsPrefixAt(t, a + t + b, |a|);
  }

  /** `t` occurs in `s` when `s` is `a + t + b`, however the concatenation is grouped. */
  lemma OccursIn3(s: string, a: string, t: string, b: string)
    requires s == a + t + b
    ensures Occurs(t, s)
  {
    OccursInMiddle(a, t, b);
  }
}
