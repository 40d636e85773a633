/** The two regular expressions the extractor applies to a trimmed line, each
    evaluated the way `String.prototype.match` evaluates a non-global pattern:
    the leftmost position where the pattern can match wins, and at that
    position the greedy quantifiers take as much as they can.

    - `/console\.log\((.*)\)/`: the label of a logging line;
    - `/,\s*(\d+)\)/`: the delay of a timer line. */
module Patterns {
  import opened Wrappers
  import opened Text

  /** A match: the pattern starts at `at`, and capture group 1 is
      `s[lo..hi]`. */
  datatype Capture = Capture(at: nat, lo: nat, hi: nat)

  /** The literal part `console.log(` that opens the logging pattern. */
  const LogOpen: string := "console.log("

  /** `/console\.log\((.*)\)/` matches `s` at `c.at`: the literal opener, then
      a run of characters `.` accepts (no line terminator) captured as
      `s[c.lo..c.hi]`, then the closing parenthesis at `c.hi`. */
  predicate IsLogMatch(s: string, c: Capture) {
    && OccursAt(s, LogOpen, c.at)
    && c.lo == c.at + |LogOpen|
    && c.lo <= c.hi < |s|
    && s[c.hi] == ')'
    && forall k :: c.lo <= k < c.hi ==> !IsLineTerminator(s[k])
  }

  /** `/,\s*(\d+)\)/` matches `s` at `c.at`: a comma, white space up to
      `c.lo`, one or more digits captured as `s[c.lo..c.hi]`, then the
      closing parenthesis at `c.hi`. */
  predicate IsDelayMatch(s: string, c: Capture) {
    && c.at < c.lo < c.hi < |s|
    && s[c.at] == ','
    && (forall k :: c.at < k < c.lo ==> IsSpace(s[k]))
    && (forall k :: c.lo <= k < c.hi ==> IsDigit(s[k]))
    && s[c.hi] == ')'
  }

  /** The first index at or after `from` holding a line terminator, or the
      end of `s`. */
  function LineEnd(s: string, from: nat): (e: nat)
    requires from <= |s|
    ensures from <= e <= |s|
    ensures forall k :: from <= k < e ==> !IsLineTerminator(s[k])
    ensures e < |s| ==> IsLineTerminator(s[e])
  {
    RunEnd(s, from, c => !IsLineTerminator(c))
  }

  /** The last index in `[from, stop)` holding `c`, or none. */
  function LastIndexIn(s: string, c: char, from: nat, stop: nat): (r: Option<nat>)
    requires from <= stop <= |s|
    ensures r.Some? ==> from <= r.value < stop && s[r.value] == c
    ensures r.Some? ==> forall k :: r.value < k < stop ==> s[k] != c
    ensures r.None? ==> (forall k :: from <= k < stop ==> s[k] != c)
    decreases stop
  {
    if stop == from then None
    else if s[stop - 1] == c then Some(stop - 1)
    else LastIndexIn(s, c, from, stop - 1)
  }

  /** The capture of a logging match stays on the line it starts on. */
  lemma LogMatchInLine(s: string, c: Capture, e: nat)
    requires IsLogMatch(s, c)
    requires c.lo <= e <= |s| && (e < |s| ==> IsLineTerminator(s[e]))
    ensures c.hi < e
  {
  }

  /** The match of `/console\.log\((.*)\)/` whose start is leftmost among
      starts at or after `from`, with its greedy (longest) capture. */
  function FindLogCallFrom(s: string, from: nat): (m: Option<Capture>)
    ensures m.Some? ==> IsLogMatch(s, m.value) && from <= m.value.at
    ensures m.Some? ==> forall c :: IsLogMatch(s, c) && from <= c.at ==>
                          m.value.at < c.at || (m.value.at == c.at && c.hi <= m.value.hi)
    ensures m.None? ==> forall c :: IsLogMatch(s, c) ==> c.at < from
    decreases |s| - from
  {
    if from + |LogOpen| > |s| then None
    else if OccursAt(s, LogOpen, from) then
      var lo := from + |LogOpen|;
      var e := LineEnd(s, lo);
      match LastIndexIn(s, ')', lo, e)
      case Some(hi) =>
        var m := Capture(from, lo, hi);
        assert IsLogMatch(s, m);
        assert forall c :: IsLogMatch(s, c) && c.at == from ==> c.hi < e by {
          forall c | IsLogMatch(s, c) && c.at == from ensures c.hi < e {
            LogMatchInLine(s, c, e);
          }
        }
        Some(m)
      case None =>
        assert forall c :: IsLogMatch(s, c) ==> c.at != from by {
          forall c | IsLogMatch(s, c) && c.at == from ensures false {
            LogMatchInLine(s, c, e);
          }
        }
        FindLogCallFrom(s, from + 1)
    else FindLogCallFrom(s, from + 1)
  }

  /** `trimmed.match(/console\.log\((.*)\)/)`: the leftmost match and, at
      that start, the longest capture; none when the pattern matches nowhere. */
  function FindLogCall(s: string): (m: Option<Capture>)
    ensures m.Some? ==> IsLogMatch(s, m.value)
    ensures m.Some? ==> forall c :: IsLogMatch(s, c) ==>
                          m.value.at < c.at || (m.value.at == c.at && c.hi <= m.value.hi)
    ensures m.None? ==> forall c :: !IsLogMatch(s, c)
  {
    FindLogCallFrom(s, 0)
  }

  /** The match of `/,\s*(\d+)\)/` whose start is leftmost among starts at or
      after `from`. */
  function FindDelayFrom(s: string, from: nat): (m: Option<Capture>)
    ensures m.Some? ==> IsDelayMatch(s, m.value) && from <= m.value.at
    ensures m.Some? ==> forall c :: IsDelayMatch(s, c) && from <= c.at ==> m.value.at <= c.at
    ensures m.None? ==> forall c :: IsDelayMatch(s, c) ==> c.at < from
    decreases |s| - from
  {
    if from >= |s| then None
    else if s[from] == ',' then
      var lo := RunEnd(s, from + 1, IsSpace);
      var hi := RunEnd(s, lo, IsDigit);
      if lo < hi < |s| && s[hi] == ')' then
        Some(Capture(from, lo, hi))
      else
        assert forall c :: IsDelayMatch(s, c) ==> c.at != from by {
          forall c | IsDelayMatch(s, c) && c.at == from ensures false {
            DelayMatchDetermined(s, c, lo, hi);
          }
        }
        FindDelayFrom(s, from + 1)
    else FindDelayFrom(s, from + 1)
  }

  /** A match at a comma is forced: its white space and its digits are the
      maximal runs that follow the comma, since neither class overlaps the
      next one. */
  lemma DelayMatchDetermined(s: string, c: Capture, lo: nat, hi: nat)
    requires IsDelayMatch(s, c)
    requires lo == RunEnd(s, c.at + 1, IsSpace)
    requires hi == RunEnd(s, lo, IsDigit)
    ensures c.lo == lo && c.hi == hi
  {
    assert IsDigit(s[c.lo]);
    assert c.lo == lo;
    assert !IsDigit(s[c.hi]);
  }

  /** Two matches of the delay pattern at the same comma are the same match:
      the capture of the leftmost match is well defined. */
  lemma DelayMatchUnique(s: string, c1: Capture, c2: Capture)
    requires IsDelayMatch(s, c1) && IsDelayMatch(s, c2) && c1.at == c2.at
    ensures c1 == c2
  {
    var lo := RunEnd(s, c1.at + 1, IsSpace);
    var hi := RunEnd(s, lo, IsDigit);
    DelayMatchDetermined(s, c1, lo, hi);
    DelayMatchDetermined(s, c2, lo, hi);
  }

  /** `trimmed.match(/,\s*(\d+)\)/)`: the leftmost match, or none when the
      pattern matches nowhere. */
  function FindDelay(s: string): (m: Option<Capture>)
    ensures m.Some? ==> IsDelayMatch(s, m.value)
    ensures m.Some? ==> forall c :: IsDelayMatch(s, c) ==> m.value.at <= c.at
    ensures m.None? ==> forall c :: !IsDelayMatch(s, c)
  {
    FindDelayFrom(s, 0)
  }
}
