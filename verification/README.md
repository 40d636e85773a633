# Event-loop visualizer: the `useEventLoop` hook in Dafny

This project models the scheduling hook of the event-loop visualizer,
`src/hooks/useEventLoop.js`, and proves properties of the model. The hook has
two halves.

- **`parseCode`** turns program text into a list of tasks, line by line. It
  does not parse JavaScript. Each trimmed line is searched for three trigger
  words:
  - a line that starts with `console.log` gives a `sync` task. Its label is
    the capture of `/console\.log\((.*)\)/` with every quote removed, or
    `"log"`;
  - a line that contains `setTimeout` gives a `macro` task. Its delay is
    `Number()` of the capture of `/,\s*(\d+)\)/`, or 0;
  - a line that contains `Promise` gives a `micro` task.
- **`runEventLoop`** shifts the tasks off a backlog one at a time. With the
  waits removed, each task makes five transitions of the state record:
  1. count the step;
  2. stage the item in: a sync item goes onto the call stack, a timer or
     promise item into the Web API area;
  3. stage it out: a sync item leaves the stack and its label is logged; an
     async item moves by id into the callback queue or the microtask queue;
  4. drain one ready item onto the call stack, microtasks first;
  5. clear the call stack.

  `run` resets the hook, loads the parsed tasks and runs the loop. `reset`
  writes back the empty record.

The modules follow the program's structure:

| file | module | contents |
|---|---|---|
| `wrappers.dfy` | `Wrappers` | `Option` |
| `text.dfy` | `Text` | `trim`, `split("\n")`, `startsWith`/`includes`, quote removal, `Number()` of digits |
| `patterns.dfy` | `Patterns` | the two regular expressions, with leftmost-then-greedy match semantics |
| `extract.dfy` | `Extract` | `parseCode` |
| `scheduler.dfy` | `Scheduler` | `createTask`, the state record, one pass of the loop, the loop, `run`, `reset` |
| `examples.dfy` | `Examples` | the `basic` program of the example menu, parsed and run to its final log |

Some behaviours of the code are easy to miss. The model follows the code on
each of them.

- A drained timer or promise item is taken off the call stack without being
  logged (lines 369-374). The log therefore holds only the labels of `sync`
  tasks, in line order. A description of the visualizer as an event-loop
  simulator would log the drained callbacks, deferred ones after the
  synchronous ones; the hook does not. For the `basic` example the log is
  `Start, Timeout, Promise, End`, which is the order of the lines
  (`Examples.BasicRun`).
- A `console.log('Promise');` line yields both a `sync` task and a `micro`
  task, because it contains the word `Promise` (`Examples.PromiseLogLine`).
- In the `basic` example the delay `0` of `setTimeout` sits on the closing
  line `}, 0);`, not on the line holding `setTimeout`. The timer task gets its
  delay 0 from the fallback (`Examples.TimerLine`).
- The module-level `idCounter` is not reset by `reset`.
- `isPaused` is written but never read by the loop.

## Model

| member | source | states |
|---|---|---|
| Text.Trim | src/hooks/useEventLoop.js:247 | `line.trim()` has no white space at either end, and is what is left of the line once white-space padding is removed from both ends |
| Text.TrimUnique | src/hooks/useEventLoop.js:247 | the trimmed line is unique: any string without edge white space that the line pads with white space is `trim()` of the line |
| Text.TrimIdempotent | src/hooks/useEventLoop.js:247 | trimming a trimmed line changes nothing |
| Text.Split | src/hooks/useEventLoop.js:243 | `code.split("\n")` gives at least one piece, no piece holds a newline, and joining the pieces with newlines gives back the code |
| Text.SplitJoin | src/hooks/useEventLoop.js:243 | splitting lines that were joined with newlines, none of them holding a newline, gives back exactly those lines |
| Text.SplitAppend | src/hooks/useEventLoop.js:243 | the lines of two texts joined by a newline are the lines of the first followed by the lines of the second |
| Text.IndexOf | src/hooks/useEventLoop.js:257 | the search behind `includes` finds the first occurrence at or after the start position, and reports none only when the word occurs nowhere there |
| Text.ContainsIff | src/hooks/useEventLoop.js:268 | `includes` holds exactly when the word occurs at some position of the trimmed line |
| Text.StripQuotes | src/hooks/useEventLoop.js:253 | `replace(/['"]/g, "")` leaves no quote character and never lengthens the text |
| Text.StripQuotesCounts | src/hooks/useEventLoop.js:253 | quote removal keeps every other character with its multiplicity |
| Text.StripQuotesAppend | src/hooks/useEventLoop.js:253 | quote removal works character by character, so it keeps the order of what it keeps |
| Text.StripQuotesQuoted | src/hooks/useEventLoop.js:253 | a quoted word without inner quotes loses exactly its two enclosing quotes |
| Text.DigitsValue | src/hooks/useEventLoop.js:259 | `Number()` of a run of n decimal digits is a natural number below 10^n |
| Text.DecimalRoundTrip | src/hooks/useEventLoop.js:259 | reading the decimal digits of any natural number gives that number back |
| Text.LeadingZero | src/hooks/useEventLoop.js:259 | a leading zero does not change the value `Number()` reads |
| Patterns.FindLogCall | src/hooks/useEventLoop.js:250 | `match(/console\.log\((.*)\)/)` returns a match that starts leftmost and, at that start, has the longest capture, a capture free of line terminators that ends before a `)`; it returns none only when no match exists |
| Patterns.FindDelay | src/hooks/useEventLoop.js:258 | `match(/,\s*(\d+)\)/)` returns the leftmost match, a comma, white space, one or more digits and `)`; it returns none only when no match exists |
| Patterns.DelayMatchUnique | src/hooks/useEventLoop.js:258 | two delay matches at the same comma are the same match, so the capture of the leftmost match is well defined |
| Extract.LogLabel | src/hooks/useEventLoop.js:249-254 | the label of a logging line: the quote-stripped capture of the logging pattern, or `"log"`; its properties are stated by `Extract.LogLabelSpec`, `Extract.LogLabelOfCall` and `Extract.LogLabelFallback` |
| Extract.TimeoutDelay | src/hooks/useEventLoop.js:257-259 | the delay of a timer line: `Number()` of the captured digits, or 0; its properties are stated by `Extract.TimeoutDelaySpec`, `Extract.TimeoutDelayFallback` and `Extract.TimeoutDelayNoComma` |
| Extract.LineTasks | src/hooks/useEventLoop.js:246-274 | the tasks one line contributes; which kinds appear, in which order and with which labels is stated by `Extract.LineTasksKinds` and `Extract.LineSilent` |
| Extract.AssembleKinds | src/hooks/useEventLoop.js:249-273 | a line contributes at most one task of each kind, in the order sync, macro, micro; a kind is present exactly when its condition holds; the timer's label is `"setTimeout callback"` with the line's delay, and the promise's label is `"Promise.then callback"` |
| Extract.LineTasksKinds | src/hooks/useEventLoop.js:246-274 | a line's sync task is present exactly when the trimmed line starts with `console.log`, its macro task exactly when it contains `setTimeout`, and its micro task exactly when it contains `Promise`; kinds come in the fixed order; the label and delay come from the trimmed line |
| Extract.LineSilent | src/hooks/useEventLoop.js:246-274 | a line adds no task exactly when its trimmed text neither starts with `console.log` nor contains `setTimeout` or `Promise` |
| Extract.SilentLineAddsNothing | src/hooks/useEventLoop.js:246-274 | a line without any trigger word can be dropped from a program without changing its tasks |
| Extract.ParseCode | src/hooks/useEventLoop.js:242-277 | `parseCode`: the line tasks of every line of the split code, in line order; stated by `Extract.ParseLinesAppend`, `Extract.ParseCodeAppend`, `Extract.ParseCodeLine` and `Extract.SilentLineAddsNothing` |
| Extract.ParseLinesAppend | src/hooks/useEventLoop.js:246-276 | the tasks of two consecutive groups of lines are the tasks of the first group followed by those of the second, so tasks come in line order |
| Extract.ParseCodeAppend | src/hooks/useEventLoop.js:242-277 | parsing two programs joined by a newline gives the tasks of the first followed by the tasks of the second |
| Extract.ParseCodeLine | src/hooks/useEventLoop.js:242-277 | a program of one line without a newline parses to that line's tasks |
| Extract.LogLabelSpec | src/hooks/useEventLoop.js:249-254 | the sync label is the leftmost, longest capture of the logging pattern with its quotes removed |
| Extract.LogLabelOfCall | src/hooks/useEventLoop.js:250-253 | for a line that opens with `console.log(`, the label is the text up to the last `)`, when no line terminator comes before that `)`, with quotes removed |
| Extract.LogLabelFallback | src/hooks/useEventLoop.js:253 | when the logging pattern matches nowhere, the label is `"log"` |
| Extract.TimeoutDelaySpec | src/hooks/useEventLoop.js:258-259 | the timer delay is the value of the digits captured by the leftmost delay match |
| Extract.TimeoutDelayFallback | src/hooks/useEventLoop.js:259 | when the delay pattern matches nowhere, the delay is 0 |
| Extract.TimeoutDelayNoComma | src/hooks/useEventLoop.js:258-259 | a line without a comma always gets the delay 0 |
| Scheduler.CreateTask | src/hooks/useEventLoop.js:212-219 | `createTask`: an item whose id is the counter's current value; the freshness of that id is stated by `Scheduler.InsertFresh` and `Scheduler.PassConsistent` |
| Scheduler.InsertFresh | src/hooks/useEventLoop.js:212-219 | an item made with the counter's current value as its id, added anywhere among items whose ids are all below the counter, is distinct from all of them, and all ids stay below the advanced counter |
| Scheduler.RemoveId | src/hooks/useEventLoop.js:319 | `webApi.filter((t) => t.id !== apiTask.id)` leaves no item with that id, never grows the list, and keeps a list without such an item as it is; which items it keeps and in what order is stated by `Scheduler.RemoveIdMembers`, `Scheduler.RemoveIdAppend` and `Scheduler.RemoveIdSingle` |
| Scheduler.RemoveIdMembers | src/hooks/useEventLoop.js:319 | an item survives the filter exactly when it was in the list and its id differs from the removed one |
| Scheduler.RemoveIdAppend | src/hooks/useEventLoop.js:319 | the filter of a concatenation is the concatenation of the filters, so the kept items stay in their order |
| Scheduler.RemoveIdSingle | src/hooks/useEventLoop.js:319 | a single item is kept exactly when its id differs; with `Scheduler.RemoveIdAppend` this determines the filter on every list |
| Scheduler.RemoveIdFresh | src/hooks/useEventLoop.js:319 | filtering out the id of an item just appended, when no other item carries it, gives back the list before the append |
| Scheduler.Promote | src/hooks/useEventLoop.js:317-339 | an async item leaves the Web API area by id and joins the callback queue (timer) or the microtask queue (promise); stated by `Scheduler.OfferThenPromote` and `Scheduler.AsyncStageConsistent` |
| Scheduler.OfferThenPromote | src/hooks/useEventLoop.js:307-340 | staging a timer or promise item through the Web API area leaves that area as it was and puts the item last in the callback queue (timer) or the microtask queue (promise), with nothing else changed |
| Scheduler.Drain | src/hooks/useEventLoop.js:345-367 | the drain step of a pass; stated by `Scheduler.DrainPriority` and `Scheduler.DrainConsistent` |
| Scheduler.DrainPriority | src/hooks/useEventLoop.js:345-367 | the drain takes the head of the ready items, microtasks before callbacks, onto the call stack and leaves the rest queued in order; no callback moves while a microtask waits; with nothing ready the state is unchanged; nothing else changes |
| Scheduler.SyncStageConsistent | src/hooks/useEventLoop.js:289-304 | pushing a sync item with a fresh id and then retiring it keeps the call stack at one frame at most and every id distinct |
| Scheduler.AsyncStageConsistent | src/hooks/useEventLoop.js:307-340 | offering an async item with a fresh id and moving it to its queue keeps every id distinct and below the counter |
| Scheduler.DrainConsistent | src/hooks/useEventLoop.js:345-367 | the drain keeps the call stack at one frame at most and every id distinct |
| Scheduler.ClearConsistent | src/hooks/useEventLoop.js:371-374 | clearing the call stack keeps the invariant |
| Scheduler.Pass | src/hooks/useEventLoop.js:283-374 | the five snapshots one task produces; stated by `Scheduler.PassProgress`, `Scheduler.PassQuiet` and `Scheduler.PassConsistent` |
| Scheduler.PassProgress | src/hooks/useEventLoop.js:283-374 | one pass raises the step by exactly one and extends the log by the task's label when it is a sync task and by nothing otherwise; each of its snapshots extends the log and step of every earlier one |
| Scheduler.PassQuiet | src/hooks/useEventLoop.js:283-374 | from a state holding no item, a pass leaves the call stack, the Web API area and both queues empty again, and changes only the step and the log |
| Scheduler.PassConsistent | src/hooks/useEventLoop.js:283-374 | every snapshot of a pass has at most one call-stack frame, holds no item twice, and shows only ids the counter has handed out |
| Scheduler.AdvanceProgress | src/hooks/useEventLoop.js:280-375 | one loop turn shifts the backlog's head, uses one id, and moves the step and the log as one pass does |
| Scheduler.Loop | src/hooks/useEventLoop.js:279-381 | `runEventLoop` run to the end: one pass per task shifted off the backlog, then `isRunning` cleared; stated by `Scheduler.LoopCounts`, `Scheduler.LoopQuiet` and `Scheduler.LoopTrace` |
| Scheduler.LoopTrace | src/hooks/useEventLoop.js:279-381 | the loop produces five snapshots per task and then the one that clears `isRunning`, which is its final state |
| Scheduler.LoopCounts | src/hooks/useEventLoop.js:279-381 | the loop raises the step by exactly the number of tasks, appends exactly the sync labels in backlog order to the log, hands out one id per task, and ends with an empty backlog and `isRunning` false |
| Scheduler.LoopQuiet | src/hooks/useEventLoop.js:279-381 | from a state holding no item, the loop leaves no item behind and changes only the step, the log and `isRunning` |
| Scheduler.LoopTraceGood | src/hooks/useEventLoop.js:279-381 | from a consistent state, every snapshot of the loop has at most one call-stack frame, holds no item twice, and shows only ids already handed out |
| Scheduler.LoopTraceMonotone | src/hooks/useEventLoop.js:279-381 | over the whole loop the log is append-only and the step never falls |
| Scheduler.Reset | src/hooks/useEventLoop.js:396-409 | `reset` empties the backlog, the call stack, the Web API area, both queues and the log, sets the step to 0 and both flags to false, and leaves the id counter alone |
| Scheduler.ResetIdempotent | src/hooks/useEventLoop.js:396-409 | resetting twice is resetting once, and the result depends on nothing but the id counter |
| Scheduler.Start | src/hooks/useEventLoop.js:383-392 | the part of `run` before the loop: reset, the parsed tasks loaded as the backlog, `isRunning` set; stated by `Scheduler.Run` and `Scheduler.StartedMonotone` |
| Scheduler.Run | src/hooks/useEventLoop.js:383-394 | a completed `run(code)` logs exactly the sync labels of the parsed tasks in line order, ends with the step equal to the number of parsed tasks and every structure empty, and uses one id per task |
| Scheduler.RunTrace | src/hooks/useEventLoop.js:383-394 | every record a `setState` update of a run produces, in order; stated by `Scheduler.RunTraceFacts` |
| Scheduler.RunTraceFacts | src/hooks/useEventLoop.js:383-394 | every snapshot of a run, from the reset on, has at most one call-stack frame and no item twice; every snapshot extends the log and step of every earlier one; the last snapshot is the run's final state |
| Scheduler.StartedMonotone | src/hooks/useEventLoop.js:383-394 | from the reset through the end of the loop, the log is append-only and the step never falls |
| Examples.BasicParse | src/App.jsx:10-20 | the `basic` example parses to seven tasks: Start, the timer with delay 0, Timeout, a promise task, Promise with its own promise task, End |
| Examples.BasicRun | src/App.jsx:10-20 | running the `basic` example from any hook ends with the log `Start, Timeout, Promise, End` and the step 7 |
| Examples.PromiseLogLine | src/App.jsx:17 | the line `console.log('Promise');` yields a sync task labelled `Promise` and a micro task |
| Examples.TimerLine | src/App.jsx:12 | the line `setTimeout(() => {` yields a timer task with the delay 0, since its delay sits on a later line |
| Examples.CanonicalLoop | src/hooks/useEventLoop.js:279-381 | the backlog sync, timer, promise, sync logs only its two sync labels and counts four steps |

## Left out

- The waits: `sleep`, the `speed` multiplier and its floating-point scaling, and every `await`. The model's traces hold every record a `setState` update produces, in order. React renders only a subsequence of them, chosen by the awaits: `run` is called from the Run button's click handler, so the updates made before the first `await` (the reset record, the `isRunning` record and the first pass's step and staging records) are batched into one render. The invariants are proved for every record, so they hold for whatever is rendered.
- React's `useState` and `useRef` plumbing. Each functional `setState` update is modelled as a pure transition of the record, applied in program order.
- Concurrency between `reset` or a second `run` and a loop still in flight. The code has no cancellation and no epoch guard, so stale updates from an earlier loop would interleave with the new run; the model runs each loop to completion on its own.
- `togglePause`: it only flips `isPaused`, which the loop never reads; only the Pause/Resume button reads it, for display.
- Scheduler.Item: the string id `${type}-${n}` is modelled by the counter value `n`. Two ids are equal exactly when their counter values are, because the counter never repeats a value.
- Text.DigitsValue: `Number()` of a long digit run is an exact natural number here. JavaScript rounds it to a double above 2^53.
- Strings are sequences of code points. JavaScript strings are UTF-16, which matters only for characters outside the Basic Multilingual Plane, and none of the matched characters is one.
- The commented-out older implementation at the top of `src/hooks/useEventLoop.js`.
- `src/utils/transformer.js` is not part of this model. It depends on the external `acorn` parser and is not used by the hook.
- The presentation components (`Visualizer.jsx`, `CodeEditor.jsx`) and the rest of `App.jsx` are not part of this model. The `basic` example text is used as a concrete input.
