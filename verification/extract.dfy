/** The line-based task extractor `parseCode`: the program text is split on
    newlines, each line is trimmed, and each trimmed line contributes a
    logging task, a timer task and a promise task, in that order, for each
    trigger word it carries. */
module Extract {
  import opened Wrappers
  import opened Text
  import opened Patterns

  /** A task as `parseCode` emits it: `type` is the constructor and `name`
      holds the task's `label` field (`label` is a reserved word here). Only
      timer tasks carry a delay. */
  datatype Task =
    | Sync(name: string)
    | Macro(name: string, delay: nat)
    | Micro(name: string)

  /** Position of a task's kind in the fixed order sync, macro, micro. */
  function Rank(t: Task): nat {
    match t
    case Sync(_) => 0
    case Macro(_, _) => 1
    case Micro(_) => 2
  }

  const LogTrigger: string := "console.log"
  const TimeoutTrigger: string := "setTimeout"
  const PromiseTrigger: string := "Promise"

  const FallbackLabel: string := "log"
  const TimeoutLabel: string := "setTimeout callback"
  const PromiseLabel: string := "Promise.then callback"

  /** The label of a logging line: the text captured by
      `/console\.log\((.*)\)/` with every quote removed, or `"log"`. */
  function LogLabel(t: string): string {
    match FindLogCall(t)
    case Some(c) => StripQuotes(t[c.lo..c.hi])
    case None => FallbackLabel
  }

  /** The delay of a timer line: `Number()` of the digits captured by
      `/,\s*(\d+)\)/`, or 0. */
  function TimeoutDelay(t: string): nat {
    match FindDelay(t)
    case Some(c) =>
      assert AllDigits(t[c.lo..c.hi]) by {
        forall k | 0 <= k < c.hi - c.lo ensures IsDigit(t[c.lo..c.hi][k]) {
          assert t[c.lo..c.hi][k] == t[c.lo + k];
        }
      }
      DigitsValue(t[c.lo..c.hi])
    case None => 0
  }

  /** `r` holds a task of the kind ranked `k`. */
  predicate HasRank(r: seq<Task>, k: nat) {
    exists i :: 0 <= i < |r| && Rank(r[i]) == k
  }

  /** The tasks of a line whose trimmed text starts with `console.log`
      (`log`), contains `setTimeout` (`timer`) or contains `Promise`
      (`promise`), in the order the extractor pushes them. */
  function Assemble(log: bool, timer: bool, promise: bool, text: string, delay: nat): seq<Task> {
    (if log then [Sync(text)] else [])
    + (if timer then [Macro(TimeoutLabel, delay)] else [])
    + (if promise then [Micro(PromiseLabel)] else [])
  }

  /** At most one task of each kind, always in the order sync, macro, micro;
      a kind is present exactly when its condition holds, and each task
      carries the name and delay of its kind. */
  lemma AssembleKinds(log: bool, timer: bool, promise: bool, text: string, delay: nat, r: seq<Task>)
    requires r == Assemble(log, timer, promise, text, delay)
    ensures forall i, j :: 0 <= i < j < |r| ==> Rank(r[i]) < Rank(r[j])
    ensures HasRank(r, 0) <==> log
    ensures HasRank(r, 1) <==> timer
    ensures HasRank(r, 2) <==> promise
    ensures forall i :: 0 <= i < |r| && r[i].Sync? ==> r[i].name == text
    ensures forall i :: 0 <= i < |r| && r[i].Macro? ==> r[i].name == TimeoutLabel && r[i].delay == delay
    ensures forall i :: 0 <= i < |r| && r[i].Micro? ==> r[i].name == PromiseLabel
  {
    var a: seq<Task> := if log then [Sync(text)] else [];
    var b: seq<Task> := if timer then [Macro(TimeoutLabel, delay)] else [];
    var c: seq<Task> := if promise then [Micro(PromiseLabel)] else [];
    assert r == a + b + c;
    forall i | 0 <= i < |r|
      ensures Rank(r[i]) == (if i < |a| then 0 else if i < |a| + |b| then 1 else 2)
      ensures r[i] == (if i < |a| then a[0] else if i < |a| + |b| then b[0] else c[0])
    {
    }
    if log { assert Rank(r[0]) == 0; }
    if timer { assert Rank(r[|a|]) == 1; }
    if promise { assert Rank(r[|a| + |b|]) == 2; }
  }

  /** `parseCode`'s work on one line. */
  function LineTasks(line: string): seq<Task> {
    var t := Trim(line);
    Assemble(StartsWith(t, LogTrigger), Contains(t, TimeoutTrigger), Contains(t, PromiseTrigger),
             LogLabel(t), TimeoutDelay(t))
  }

  /** A kind is present in a line's tasks exactly when its trigger is in the
      trimmed line, the kinds come in the order sync, macro, micro, and every
      label and delay comes from that trimmed line. */
  lemma LineTasksKinds(line: string, r: seq<Task>)
    requires r == LineTasks(line)
    ensures forall i, j :: 0 <= i < j < |r| ==> Rank(r[i]) < Rank(r[j])
    ensures HasRank(r, 0) <==> StartsWith(Trim(line), LogTrigger)
    ensures HasRank(r, 1) <==> Contains(Trim(line), TimeoutTrigger)
    ensures HasRank(r, 2) <==> Contains(Trim(line), PromiseTrigger)
    ensures forall i :: 0 <= i < |r| && r[i].Sync? ==> r[i].name == LogLabel(Trim(line))
    ensures forall i :: 0 <= i < |r| && r[i].Macro? ==>
              r[i].name == TimeoutLabel && r[i].delay == TimeoutDelay(Trim(line))
    ensures forall i :: 0 <= i < |r| && r[i].Micro? ==> r[i].name == PromiseLabel
  {
    var t := Trim(line);
    AssembleKinds(StartsWith(t, LogTrigger), Contains(t, TimeoutTrigger), Contains(t, PromiseTrigger),
                  LogLabel(t), TimeoutDelay(t), r);
  }

  /** The tasks of a list of lines, line after line. */
  function ParseLines(lines: seq<string>): seq<Task> {
    FlatMap(LineTasks, lines)
  }

  /** The results of `f` on the elements of `xs`, concatenated in order. */
  function FlatMap<X, Y>(f: X -> seq<Y>, xs: seq<X>): seq<Y> {
    if |xs| == 0 then [] else f(xs[0]) + FlatMap(f, xs[1..])
  }

  lemma {:induction false} FlatMapAppend<X, Y>(f: X -> seq<Y>, a: seq<X>, b: seq<X>)
    ensures FlatMap(f, a + b) == FlatMap(f, a) + FlatMap(f, b)
  {
    if |a| == 0 {
      assert a + b == b;
    } else {
      assert (a + b)[0] == a[0];
      assert (a + b)[1..] == a[1..] + b;
      FlatMapAppend(f, a[1..], b);
    }
  }

  /** `parseCode`: split on `"\n"`, then the tasks of every line in order. */
  function ParseCode(code: string): seq<Task> {
    ParseLines(Split(code, '\n'))
  }

  /** The tasks of consecutive groups of lines follow each other in line
      order. */
  lemma ParseLinesAppend(a: seq<string>, b: seq<string>)
    ensures ParseLines(a + b) == ParseLines(a) + ParseLines(b)
  {
    FlatMapAppend(LineTasks, a, b);
  }

  /** A line holds no task exactly when its trimmed text neither starts with
      `console.log` nor contains `setTimeout` or `Promise`. */
  lemma LineSilent(line: string)
    ensures LineTasks(line) == [] <==>
              !StartsWith(Trim(line), LogTrigger)
              && !Contains(Trim(line), TimeoutTrigger)
              && !Contains(Trim(line), PromiseTrigger)
  {
    var r := LineTasks(line);
    LineTasksKinds(line, r);
    if r != [] {
      assert Rank(r[0]) == 0 || Rank(r[0]) == 1 || Rank(r[0]) == 2;
      assert HasRank(r, Rank(r[0]));
    }
  }

  /** A line without any trigger word adds nothing and does not disturb the
      order of the tasks around it. */
  lemma SilentLineAddsNothing(a: seq<string>, line: string, b: seq<string>)
    requires !StartsWith(Trim(line), LogTrigger)
    requires !Contains(Trim(line), TimeoutTrigger)
    requires !Contains(Trim(line), PromiseTrigger)
    ensures ParseLines(a + [line] + b) == ParseLines(a) + ParseLines(b)
  {
    LineSilent(line);
    DropSilentLine(a, line, b);
  }

  /** A line that yields no task can be dropped from the program. */
  lemma DropSilentLine(a: seq<string>, line: string, b: seq<string>)
    requires LineTasks(line) == []
    ensures ParseLines(a + [line] + b) == ParseLines(a) + ParseLines(b)
  {
    FlatMapSkip(LineTasks, a, line, b);
  }

  /** An element that `f` maps to nothing drops out of the concatenation. */
  lemma FlatMapSkip<X, Y>(f: X -> seq<Y>, a: seq<X>, x: X, b: seq<X>)
    requires f(x) == []
    ensures FlatMap(f, a + [x] + b) == FlatMap(f, a) + FlatMap(f, b)
  {
    FlatMapAppend(f, a + [x], b);
    FlatMapAppend(f, a, [x]);
    assert [x][1..] == [];
    assert FlatMap(f, [x]) == f(x) + FlatMap(f, []);
  }

  /** One line parses to that line's tasks. */
  lemma ParseLinesSingle(line: string)
    ensures ParseLines([line]) == LineTasks(line)
  {
    assert [line][1..] == [];
    assert FlatMap(LineTasks, [line]) == LineTasks(line) + FlatMap(LineTasks, []);
  }

  /** Joining two programs with a newline concatenates their task lists. */
  lemma ParseCodeAppend(a: string, b: string)
    ensures ParseCode(a + "\n" + b) == ParseCode(a) + ParseCode(b)
  {
    SplitAppend(a, b, '\n');
    ParseLinesAppend(Split(a, '\n'), Split(b, '\n'));
  }

  /** A single line of program text (no newline) is parsed as that line. */
  lemma ParseCodeLine(line: string)
    requires '\n' !in line
    ensures ParseCode(line) == LineTasks(line)
  {
    SplitFree(line, '\n');
    ParseLinesSingle(line);
  }

  /** The logging label seen through the pattern's reference meaning: the
      quote-free text between the leftmost `console.log(` that has a closing
      parenthesis on its line and the last such parenthesis; `"log"` when
      there is none. */
  lemma LogLabelSpec(t: string, c: Capture)
    requires IsLogMatch(t, c)
    requires forall d :: IsLogMatch(t, d) ==> c.at < d.at || (c.at == d.at && d.hi <= c.hi)
    ensures LogLabel(t) == StripQuotes(t[c.lo..c.hi])
  {
    var m := FindLogCall(t).value;
    assert m.at == c.at && m.hi == c.hi;
  }

  /** A line that opens with `console.log(` and has its last closing
      parenthesis at `hi`, with no line terminator before it, is labelled by
      the quote-free text in between. A line terminator stops the `.` of the
      pattern, so without that condition the capture can end earlier or the
      pattern can fail. */
  lemma LogLabelOfCall(t: string, hi: nat)
    requires OccursAt(t, LogOpen, 0)
    requires |LogOpen| <= hi < |t| && t[hi] == ')' && ')' !in t[hi + 1..]
    requires forall k :: |LogOpen| <= k < hi ==> !IsLineTerminator(t[k])
    ensures LogLabel(t) == StripQuotes(t[|LogOpen|..hi])
  {
    var c := Capture(0, |LogOpen|, hi);
    forall k | hi < k < |t| ensures t[k] != ')' {
      assert t[hi + 1..][k - hi - 1] == t[k];
    }
    LogLabelSpec(t, c);
  }

  lemma LogLabelFallback(t: string)
    requires forall d :: !IsLogMatch(t, d)
    ensures LogLabel(t) == FallbackLabel
  {
  }

  /** The delay seen through the pattern's reference meaning: the value of
      the digits of the leftmost comma-digits-parenthesis match; 0 when the
      pattern matches nowhere. The delay is a natural number, never
      negative. */
  lemma TimeoutDelaySpec(t: string, c: Capture)
    requires IsDelayMatch(t, c)
    requires forall d :: IsDelayMatch(t, d) ==> c.at <= d.at
    ensures AllDigits(t[c.lo..c.hi])
    ensures TimeoutDelay(t) == DigitsValue(t[c.lo..c.hi])
  {
    var m := FindDelay(t).value;
    DelayMatchUnique(t, m, c);
    assert AllDigits(t[c.lo..c.hi]) by {
      forall k | 0 <= k < c.hi - c.lo ensures IsDigit(t[c.lo..c.hi][k]) {
        assert t[c.lo..c.hi][k] == t[c.lo + k];
      }
    }
  }

  lemma TimeoutDelayFallback(t: string)
    requires forall d :: !IsDelayMatch(t, d)
    ensures TimeoutDelay(t) == 0
  {
  }

  /** A line without a comma has delay 0. */
  lemma TimeoutDelayNoComma(t: string)
    requires ',' !in t
    ensures TimeoutDelay(t) == 0
  {
    forall k | 0 <= k < |t| ensures t[k] != ',' {
      assert t[k] in t;
    }
  }
}
