/** The `basic` program of the visualizer's example menu, followed from its
    text to the log a run produces, and the four-task program the event-loop
    literature uses to show microtask priority. */
module Examples {
  import opened Text
  import opened Patterns
  import opened Extract
  import opened Scheduler

  /** The lines of the `basic` example program, in order. */
  const BasicLines: seq<string> := [
    "console.log('Start');",
    "",
    "setTimeout(() => {",
    "  console.log('Timeout');",
    "}, 0);",
    "",
    "Promise.resolve().then(() => {",
    "  console.log('Promise');",
    "});",
    "",
    "console.log('End');"
  ]

  /** A trimmed line `console.log('w');` starts with `console.log` and is
      labelled `w`. */
  lemma QuotedLogCall(t: string, w: string)
    requires |t| >= |LogOpen| + 4 && t[..|LogOpen|] == LogOpen && t[|t| - 2..] == ");"
    requires IsQuote(t[|LogOpen|]) && IsQuote(t[|t| - 3])
    requires t[|LogOpen| + 1..|t| - 3] == w
    requires forall k :: 0 <= k < |w| ==> !IsQuote(w[k]) && !IsLineTerminator(w[k])
    ensures StartsWith(t, LogTrigger)
    ensures LogLabel(t) == w
  {
    QuotedCallPlain(t, w);
    QuotedCallShape(t);
    QuotedCallInner(t);
    LogLabelOfCall(t, |t| - 2);
  }

  /** Between its quotes the argument holds the word and nothing else. */
  lemma QuotedCallPlain(t: string, w: string)
    requires |t| >= |LogOpen| + 4 && t[|LogOpen| + 1..|t| - 3] == w
    requires forall k :: 0 <= k < |w| ==> !IsQuote(w[k]) && !IsLineTerminator(w[k])
    ensures forall k :: |LogOpen| < k < |t| - 3 ==> !IsQuote(t[k]) && !IsLineTerminator(t[k])
  {
    forall k | |LogOpen| < k < |t| - 3 ensures !IsQuote(t[k]) && !IsLineTerminator(t[k]) {
      assert t[k] == w[k - |LogOpen| - 1];
    }
  }

  /** The call shape `console.log(...);` as the logging pattern sees it. */
  lemma QuotedCallShape(t: string)
    requires |t| >= |LogOpen| + 4 && t[..|LogOpen|] == LogOpen && t[|t| - 2..] == ");"
    requires IsQuote(t[|LogOpen|]) && IsQuote(t[|t| - 3])
    requires forall k :: |LogOpen| < k < |t| - 3 ==> !IsQuote(t[k]) && !IsLineTerminator(t[k])
    ensures StartsWith(t, LogTrigger) && OccursAt(t, LogOpen, 0)
    ensures t[|t| - 2] == ')' && ')' !in t[|t| - 1..]
    ensures forall k :: |LogOpen| <= k < |t| - 2 ==> !IsLineTerminator(t[k])
  {
    assert t[..|LogTrigger|] == t[..|LogOpen|][..|LogTrigger|];
    assert t[|t| - 2] == t[|t| - 2..][0] && t[|t| - 1..] == t[|t| - 2..][1..];
  }

  /** The argument `'w'` of the call loses exactly its two quotes. */
  lemma QuotedCallInner(t: string)
    requires |t| >= |LogOpen| + 4
    requires IsQuote(t[|LogOpen|]) && IsQuote(t[|t| - 3])
    requires forall k :: |LogOpen| < k < |t| - 3 ==> !IsQuote(t[k])
    ensures StripQuotes(t[|LogOpen|..|t| - 2]) == t[|LogOpen| + 1..|t| - 3]
  {
    var q := t[|LogOpen|..|t| - 2];
    assert q[0] == t[|LogOpen|] && q[|q| - 1] == t[|t| - 3];
    assert forall k :: 0 < k < |q| - 1 ==> q[k] == t[|LogOpen| + k];
    StripQuotesQuoted(q);
    assert q[1..|q| - 1] == t[|LogOpen| + 1..|t| - 3];
  }

  /** The tasks of a line follow from what its trimmed text shows. */
  lemma LineTasksFrom(line: string, t: string, log: bool, timer: bool, promise: bool, text: string)
    requires Trim(line) == t
    requires StartsWith(t, LogTrigger) == log
    requires log ==> LogLabel(t) == text
    requires Contains(t, TimeoutTrigger) == timer
    requires Contains(t, PromiseTrigger) == promise
    ensures LineTasks(line) ==
              (if log then [Sync(text)] else [])
              + (if timer then [Macro(TimeoutLabel, TimeoutDelay(t))] else [])
              + (if promise then [Micro(PromiseLabel)] else [])
  {
  }

  /** A line whose trimmed text lacks a character of each trigger word
      yields no task. */
  lemma SilentLine(line: string, t: string, a: nat, b: nat, c: nat)
    requires Trim(line) == t
    requires a < |LogTrigger| && LogTrigger[a] !in t
    requires b < |TimeoutTrigger| && TimeoutTrigger[b] !in t
    requires c < |PromiseTrigger| && PromiseTrigger[c] !in t
    ensures LineTasks(line) == []
  {
    MissingChar(t, LogTrigger, a);
    MissingChar(t, TimeoutTrigger, b);
    MissingChar(t, PromiseTrigger, c);
    LineTasksFrom(line, t, false, false, false, "");
  }

  // ---------------------------------------------------------------- lines
  //
  // One small group of lemmas per line of the program. The text functions
  // are recursive, and the verifier unfolds them eagerly on a string literal,
  // so each lemma below is kept to one literal and one or two facts: the
  // general work is done once by `QuotedLogCall`, `MissingChar` and
  // `TrimAfter`, and a per-line lemma only supplies the word, the missing
  // character or the indent. Lemmas that state the same fact of different
  // literals therefore look alike on purpose.

  lemma EmptyLine(s: string)
    requires s == ""
    ensures LineTasks(s) == []
  {
    TrimAfter(s, 0);
    SilentLine(s, s, 0, 0, 0);
  }

  lemma StartLine(s: string)
    requires s == "console.log('Start');"
    ensures LineTasks(s) == [Sync("Start")]
  {
    TrimAfter(s, 0);
    StartText(s);
    LineTasksFrom(s, s, true, false, false, "Start");
  }

  lemma StartText(t: string)
    requires t == "console.log('Start');"
    ensures StartsWith(t, LogTrigger) && LogLabel(t) == "Start"
    ensures !Contains(t, TimeoutTrigger) && !Contains(t, PromiseTrigger)
  {
    StartAbsent(t);
    StartLabel(t);
  }

  lemma StartAbsent(t: string)
    requires t == "console.log('Start');"
    ensures !Contains(t, TimeoutTrigger) && !Contains(t, PromiseTrigger)
  {
    MissingChar(t, TimeoutTrigger, 3);
    MissingChar(t, PromiseTrigger, 0);
  }

  lemma StartLabel(t: string)
    requires t == "console.log('Start');"
    ensures StartsWith(t, LogTrigger) && LogLabel(t) == "Start"
  {
    assert t[|LogOpen| + 1..|t| - 3] == "Start";
    QuotedLogCall(t, "Start");
  }

  lemma TimerLine(s: string)
    requires s == "setTimeout(() => {"
    ensures LineTasks(s) == [Macro(TimeoutLabel, 0)]
  {
    TrimAfter(s, 0);
    TimerText(s);
    LineTasksFrom(s, s, false, true, false, "");
  }

  lemma TimerText(t: string)
    requires t == "setTimeout(() => {"
    ensures !StartsWith(t, LogTrigger) && Contains(t, TimeoutTrigger) && !Contains(t, PromiseTrigger)
    ensures TimeoutDelay(t) == 0
  {
    TimerAbsent(t);
    TimeoutDelayNoComma(t);
  }

  lemma TimerAbsent(t: string)
    requires t == "setTimeout(() => {"
    ensures !StartsWith(t, LogTrigger) && Contains(t, TimeoutTrigger) && !Contains(t, PromiseTrigger)
  {
    MissingChar(t, LogTrigger, 0);
    MissingChar(t, PromiseTrigger, 0);
  }

  lemma TimeoutLogLine(s: string)
    requires s == "  console.log('Timeout');"
    ensures LineTasks(s) == [Sync("Timeout")]
  {
    var t := TimeoutIndent(s);
    TimeoutText(t);
    LineTasksFrom(s, t, true, false, false, "Timeout");
  }

  lemma TimeoutIndent(s: string) returns (t: string)
    requires s == "  console.log('Timeout');"
    ensures Trim(s) == t && t == "console.log('Timeout');"
  {
    TrimAfter(s, 2);
    t := s[2..];
  }

  lemma TimeoutText(t: string)
    requires t == "console.log('Timeout');"
    ensures StartsWith(t, LogTrigger) && LogLabel(t) == "Timeout"
    ensures !Contains(t, TimeoutTrigger) && !Contains(t, PromiseTrigger)
  {
    TimeoutAbsent(t);
    TimeoutLogLabel(t);
  }

  /** The word `Timeout` holds the only capital T, and `setTimeout` would
      have to start three characters before it, where `g('` stands. */
  lemma TimeoutAbsent(t: string)
    requires t == "console.log('Timeout');"
    ensures !Contains(t, TimeoutTrigger) && !Contains(t, PromiseTrigger)
  {
    assert t[10..20][0] == 'g';
    SoleAnchor(t, TimeoutTrigger, 3, 13);
    MissingChar(t, PromiseTrigger, 0);
  }

  lemma TimeoutLogLabel(t: string)
    requires t == "console.log('Timeout');"
    ensures StartsWith(t, LogTrigger) && LogLabel(t) == "Timeout"
  {
    assert t[|LogOpen| + 1..|t| - 3] == "Timeout";
    QuotedLogCall(t, "Timeout");
  }

  lemma TimerCloseLine(s: string)
    requires s == "}, 0);"
    ensures LineTasks(s) == []
  {
    TrimAfter(s, 0);
    SilentLine(s, s, 0, 3, 0);
  }

  lemma ChainLine(s: string)
    requires s == "Promise.resolve().then(() => {"
    ensures LineTasks(s) == [Micro(PromiseLabel)]
  {
    TrimAfter(s, 0);
    ChainText(s);
    LineTasksFrom(s, s, false, false, true, "");
  }

  lemma ChainText(t: string)
    requires t == "Promise.resolve().then(() => {"
    ensures !StartsWith(t, LogTrigger) && !Contains(t, TimeoutTrigger) && Contains(t, PromiseTrigger)
  {
    assert t[..|PromiseTrigger|] == PromiseTrigger;
    ContainsIff(t, PromiseTrigger);
    ChainNoLog(t);
    MissingChar(t, TimeoutTrigger, 3);
  }

  /** The chain line holds no lower-case c, so `console.log` is not in it. */
  lemma ChainNoLog(t: string)
    requires t == "Promise.resolve().then(() => {"
    ensures !StartsWith(t, LogTrigger)
  {
    MissingChar(t, LogTrigger, 0);
  }

  lemma PromiseLogLine(s: string)
    requires s == "  console.log('Promise');"
    ensures LineTasks(s) == [Sync("Promise"), Micro(PromiseLabel)]
  {
    var t := PromiseIndent(s);
    PromiseText(t);
    LineTasksFrom(s, t, true, false, true, "Promise");
  }

  lemma PromiseIndent(s: string) returns (t: string)
    requires s == "  console.log('Promise');"
    ensures Trim(s) == t && t == "console.log('Promise');"
  {
    TrimAfter(s, 2);
    t := s[2..];
  }

  lemma PromiseText(t: string)
    requires t == "console.log('Promise');"
    ensures StartsWith(t, LogTrigger) && LogLabel(t) == "Promise"
    ensures !Contains(t, TimeoutTrigger) && Contains(t, PromiseTrigger)
  {
    PromiseWords(t);
    PromiseLogLabel(t);
  }

  lemma PromiseWords(t: string)
    requires t == "console.log('Promise');"
    ensures !Contains(t, TimeoutTrigger) && Contains(t, PromiseTrigger)
  {
    MissingChar(t, TimeoutTrigger, 3);
    assert OccursAt(t, PromiseTrigger, 13);
  }

  lemma PromiseLogLabel(t: string)
    requires t == "console.log('Promise');"
    ensures StartsWith(t, LogTrigger) && LogLabel(t) == "Promise"
  {
    assert t[|LogOpen| + 1..|t| - 3] == "Promise";
    QuotedLogCall(t, "Promise");
  }

  lemma ChainCloseLine(s: string)
    requires s == "});"
    ensures LineTasks(s) == []
  {
    TrimAfter(s, 0);
    SilentLine(s, s, 0, 3, 0);
  }

  lemma EndLine(s: string)
    requires s == "console.log('End');"
    ensures LineTasks(s) == [Sync("End")]
  {
    TrimAfter(s, 0);
    EndText(s);
    LineTasksFrom(s, s, true, false, false, "End");
  }

  lemma EndText(t: string)
    requires t == "console.log('End');"
    ensures StartsWith(t, LogTrigger) && LogLabel(t) == "End"
    ensures !Contains(t, TimeoutTrigger) && !Contains(t, PromiseTrigger)
  {
    EndAbsent(t);
    EndLabel(t);
  }

  lemma EndAbsent(t: string)
    requires t == "console.log('End');"
    ensures !Contains(t, TimeoutTrigger) && !Contains(t, PromiseTrigger)
  {
    MissingChar(t, TimeoutTrigger, 3);
    MissingChar(t, PromiseTrigger, 0);
  }

  lemma EndLabel(t: string)
    requires t == "console.log('End');"
    ensures StartsWith(t, LogTrigger) && LogLabel(t) == "End"
  {
    assert t[|LogOpen| + 1..|t| - 3] == "End";
    QuotedLogCall(t, "End");
  }

  /** The lists of `parts`, concatenated in order. */
  function Concat<Y>(parts: seq<seq<Y>>): seq<Y> {
    if |parts| == 0 then [] else parts[0] + Concat(parts[1..])
  }

  /** Mapping every element to its own list and concatenating is the
      concatenation of those lists. */
  lemma {:induction false} FlatMapOf<X, Y>(f: X -> seq<Y>, xs: seq<X>, parts: seq<seq<Y>>)
    requires |xs| == |parts|
    requires forall k :: 0 <= k < |xs| ==> f(xs[k]) == parts[k]
    ensures FlatMap(f, xs) == Concat(parts)
  {
    if |xs| > 0 {
      FlatMapOf(f, xs[1..], parts[1..]);
    }
  }

  /** The tasks of a program are its lines' tasks in line order. */
  lemma ParseLinesOf(lines: seq<string>, parts: seq<seq<Task>>)
    requires |lines| == |parts|
    requires forall k :: 0 <= k < |lines| ==> LineTasks(lines[k]) == parts[k]
    ensures ParseLines(lines) == Concat(parts)
  {
    FlatMapOf(LineTasks, lines, parts);
  }

  /** What each line of the `basic` program contributes. */
  const BasicParts: seq<seq<Task>> := [
    [Sync("Start")],
    [],
    [Macro(TimeoutLabel, 0)],
    [Sync("Timeout")],
    [],
    [],
    [Micro(PromiseLabel)],
    [Sync("Promise"), Micro(PromiseLabel)],
    [],
    [],
    [Sync("End")]
  ]

  /** The tasks of the `basic` program. */
  const BasicTasks: seq<Task> :=
    [Sync("Start"), Macro(TimeoutLabel, 0), Sync("Timeout"), Micro(PromiseLabel),
     Sync("Promise"), Micro(PromiseLabel), Sync("End")]

  /** The `basic` program parses to seven tasks: the outer and inner logging
      calls in line order, a timer with delay 0 (its delay argument sits on a
      later line than the `setTimeout` call), and two promise callbacks,
      since the line logging `'Promise'` also contains the trigger word
      `Promise`. */
  lemma BasicParse(lines: seq<string>)
    requires lines == BasicLines
    ensures ParseCode(Join(lines, '\n')) == BasicTasks
  {
    BasicSplit(lines);
    BasicLinesParse(lines);
    BasicConcat();
  }

  /** Splitting the program text at newlines gives its lines back. */
  lemma BasicSplit(lines: seq<string>)
    requires lines == BasicLines
    ensures Split(Join(lines, '\n'), '\n') == lines
  {
    forall k | 0 <= k < |lines| ensures '\n' !in lines[k] {
      BasicLineFree(lines, k);
    }
    SplitJoin(lines, '\n');
  }

  lemma BasicLineFree(lines: seq<string>, k: nat)
    requires lines == BasicLines && k < |lines|
    ensures '\n' !in lines[k]
  {
    if k < 4 {
      assert '\n' !in lines[0] && '\n' !in lines[1] && '\n' !in lines[2] && '\n' !in lines[3];
    } else if k < 8 {
      assert '\n' !in lines[4] && '\n' !in lines[5] && '\n' !in lines[6] && '\n' !in lines[7];
    } else {
      assert '\n' !in lines[8] && '\n' !in lines[9] && '\n' !in lines[10];
    }
  }

  lemma BasicConcat()
    ensures Concat(BasicParts) == BasicTasks
  {
    var p := BasicParts;
    BasicConcatMiddle(p);
    forall i | 0 <= i < 2 ensures Concat(p[i..]) == p[i] + Concat(p[i + 1..]) {
      assert p[i..][1..] == p[i + 1..];
    }
    assert Concat(p[1..]) == [Macro(TimeoutLabel, 0), Sync("Timeout"), Micro(PromiseLabel), Sync("Promise"), Micro(PromiseLabel), Sync("End")];
    assert Concat(p[0..]) == [Sync("Start"), Macro(TimeoutLabel, 0), Sync("Timeout"), Micro(PromiseLabel), Sync("Promise"), Micro(PromiseLabel), Sync("End")];
    assert p[0..] == p;
  }

  /** The tasks of the basic example from its third line on. */
  lemma BasicConcatMiddle(p: seq<seq<Task>>)
    requires p == BasicParts
    ensures Concat(p[2..]) == [Macro(TimeoutLabel, 0), Sync("Timeout"), Micro(PromiseLabel), Sync("Promise"), Micro(PromiseLabel), Sync("End")]
  {
    BasicConcatLate(p);
    forall i | 2 <= i < 5 ensures Concat(p[i..]) == p[i] + Concat(p[i + 1..]) {
      assert p[i..][1..] == p[i + 1..];
    }
    assert Concat(p[4..]) == [Micro(PromiseLabel), Sync("Promise"), Micro(PromiseLabel), Sync("End")];
    assert Concat(p[3..]) == [Sync("Timeout"), Micro(PromiseLabel), Sync("Promise"), Micro(PromiseLabel), Sync("End")];
  }

  /** The tasks of the last six lines of the basic example. */
  lemma BasicConcatLate(p: seq<seq<Task>>)
    requires p == BasicParts
    ensures Concat(p[5..]) == [Micro(PromiseLabel), Sync("Promise"), Micro(PromiseLabel), Sync("End")]
  {
    forall i | 5 <= i < |p| ensures Concat(p[i..]) == p[i] + Concat(p[i + 1..]) {
      assert p[i..][1..] == p[i + 1..];
    }
    assert Concat(p[11..]) == [];
    assert Concat(p[10..]) == [Sync("End")];
    assert Concat(p[9..]) == [Sync("End")];
    assert Concat(p[8..]) == [Sync("End")];
    assert Concat(p[7..]) == [Sync("Promise"), Micro(PromiseLabel), Sync("End")];
    assert Concat(p[6..]) == [Micro(PromiseLabel), Sync("Promise"), Micro(PromiseLabel), Sync("End")];
  }

  lemma BasicLinesParse(lines: seq<string>)
    requires lines == BasicLines
    ensures ParseLines(lines) == Concat(BasicParts)
  {
    forall k | 0 <= k < |lines| ensures LineTasks(lines[k]) == BasicParts[k] {
      BasicLine(lines, k);
    }
    ParseLinesOf(lines, BasicParts);
  }

  lemma BasicLine(lines: seq<string>, k: nat)
    requires lines == BasicLines && k < |lines|
    ensures LineTasks(lines[k]) == BasicParts[k]
  {
    if k < 6 { BasicLineEarly(lines, k); } else { BasicLineLate(lines, k); }
  }

  lemma BasicLineEarly(lines: seq<string>, k: nat)
    requires lines == BasicLines && k < 6
    ensures LineTasks(lines[k]) == BasicParts[k]
  {
    var s := lines[k];
    if k == 0 { StartLine(s); }
    else if k == 1 || k == 5 { EmptyLine(s); }
    else if k == 2 { TimerLine(s); }
    else if k == 3 { TimeoutLogLine(s); }
    else { TimerCloseLine(s); }
  }

  lemma BasicLineLate(lines: seq<string>, k: nat)
    requires lines == BasicLines && 6 <= k < |lines|
    ensures LineTasks(lines[k]) == BasicParts[k]
  {
    var s := lines[k];
    if k == 6 { ChainLine(s); }
    else if k == 7 { PromiseLogLine(s); }
    else if k == 8 { ChainCloseLine(s); }
    else if k == 9 { EmptyLine(s); }
    else { EndLine(s); }
  }


  /** Running the `basic` program logs the four labels in line order, the
      callbacks' labels included, because each logging line is a task of its
      own; the drained timer and promise items add nothing to the log. */
  lemma BasicRun(h: Hook, lines: seq<string>)
    requires lines == BasicLines
    ensures Run(h, Join(lines, '\n')).state.logs == ["Start", "Timeout", "Promise", "End"]
    ensures Run(h, Join(lines, '\n')).state.step == 7
  {
    BasicParse(lines);
    LabelsOf(BasicTasks);
  }

  /** The labels of the `basic` program's tasks. */
  lemma LabelsOf(q: seq<Task>)
    requires q == BasicTasks
    ensures SyncLabels(q) == ["Start", "Timeout", "Promise", "End"]
  {
    AlternatingLabels(q);
  }

  /** Seven tasks of which the first and every second one log: only those
      four labels reach the log. */
  lemma AlternatingLabels(q: seq<Task>)
    requires |q| == 7
    requires q[0].Sync? && !q[1].Sync? && q[2].Sync? && !q[3].Sync? && q[4].Sync? && !q[5].Sync? && q[6].Sync?
    ensures SyncLabels(q) == [q[0].name, q[2].name, q[4].name, q[6].name]
  {
    SyncLabelsAt(q, 6);
    assert SyncLabels(q[7..]) == [];
    SyncLabelsAt(q, 5);
    SyncLabelsAt(q, 4);
    SyncLabelsAt(q, 3);
    SyncLabelsAt(q, 2);
    SyncLabelsAt(q, 1);
    SyncLabelsAt(q, 0);
    assert q[0..] == q;
  }

  /** The four-task program of the event-loop literature: a log, a timer, a
      promise callback and a log. Only the two logging tasks reach the log;
      the timer and promise items are drained and dropped. */
  lemma CanonicalLoop(h: Hook)
    requires h.taskQueue == [Sync("Start"), Macro(TimeoutLabel, 0), Micro(PromiseLabel), Sync("End")]
    ensures Loop(h).state.logs == h.state.logs + ["Start", "End"]
    ensures Loop(h).state.step == h.state.step + 4
  {
    LoopCounts(h);
    OuterLabels(h.taskQueue);
  }

  /** Four tasks of which only the first and the last log: only those two
      labels reach the log. */
  lemma OuterLabels(q: seq<Task>)
    requires |q| == 4 && q[0].Sync? && !q[1].Sync? && !q[2].Sync? && q[3].Sync?
    ensures SyncLabels(q) == [q[0].name, q[3].name]
  {
    SyncLabelsAt(q, 3);
    assert SyncLabels(q[4..]) == [];
    SyncLabelsAt(q, 2);
    SyncLabelsAt(q, 1);
    SyncLabelsAt(q, 0);
    assert q[0..] == q;
  }
}
