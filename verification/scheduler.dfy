/** The scheduling half of the `useEventLoop` hook. The hook keeps one state
    record, replaced by each `setState` call; with the waits between calls
    taken out, each call is a pure transition of that record, and the record
    after each call is a snapshot the visualizer may show.

    One pass of the loop in `runEventLoop` takes the next task off the
    backlog and makes five transitions: count the step, two staging
    transitions that depend on the task's kind, drain one ready item with
    microtask priority, and clear the call stack. */
module Scheduler {
  import opened Extract

  /** The `type` that `createTask` stamps on a runtime item. */
  datatype Tag = SYNC | TIMEOUT | PROMISE

  /** A runtime item made by `createTask`. The number `id` is the value the
      module-level counter had when the item was made; the source's string
      id `${type}-${id}` is equal for two items exactly when these numbers
      are, because the counter never repeats a value. */
  datatype Item = Item(id: nat, name: string, tag: Tag, delay: nat)

  /** The hook's state record. */
  datatype State = State(
    callStack: seq<Item>,
    webApi: seq<Item>,
    microtaskQueue: seq<Item>,
    callbackQueue: seq<Item>,
    logs: seq<string>,
    step: nat,
    isRunning: bool,
    isPaused: bool)

  /** The state record together with the backlog `taskQueue.current` and the
      module-level `idCounter`, which no operation of the hook resets. */
  datatype Hook = Hook(state: State, taskQueue: seq<Task>, idCounter: nat)

  /** The record `useState` starts with and `reset` writes back. */
  const Initial: State := State([], [], [], [], [], 0, false, false)

  /** `createTask(name, type, delay)` when the counter holds `counter`; the
      caller moves the counter on by one. */
  function CreateTask(name: string, tag: Tag, delay: nat, counter: nat): Item {
    Item(counter, name, tag, delay)
  }

  // ---------------------------------------------------------------- invariant

  /** The items waiting off the call stack, structure by structure. */
  function Waiting(s: State): seq<Item> {
    s.webApi + s.microtaskQueue + s.callbackQueue
  }

  /** Every item the record shows, the call stack first. */
  function Items(s: State): seq<Item> {
    s.callStack + Waiting(s)
  }

  /** No two positions of `xs` hold items with the same id. */
  predicate DistinctIds(xs: seq<Item>) {
    forall i, j :: 0 <= i < j < |xs| ==> xs[i].id != xs[j].id
  }

  /** Every id in `xs` was handed out before the counter reached `counter`. */
  predicate Below(xs: seq<Item>, counter: nat) {
    forall i :: 0 <= i < |xs| ==> xs[i].id < counter
  }

  /** The structural invariant of a snapshot: at most one frame on the call
      stack, and no item in two places (or twice in one). */
  predicate Consistent(s: State) {
    |s.callStack| <= 1 && DistinctIds(Items(s))
  }

  /** Every id the record shows was handed out before the counter reached
      `counter`. */
  predicate Fresh(s: State, counter: nat) {
    Below(Items(s), counter)
  }

  /** A consistent snapshot whose ids are all below `counter`. */
  predicate Good(s: State, counter: nat) {
    Consistent(s) && Fresh(s, counter)
  }

  /** No item anywhere: the call stack, the Web API area and both queues are
      empty. */
  predicate Quiet(s: State) {
    s.callStack == [] && s.webApi == [] && s.microtaskQueue == [] && s.callbackQueue == []
  }

  /** Dropping a prefix keeps ids distinct and below the counter. */
  lemma DropPrefix(p: seq<Item>, q: seq<Item>, counter: nat)
    requires DistinctIds(p + q) && Below(p + q, counter)
    ensures DistinctIds(q) && Below(q, counter)
  {
    forall i | 0 <= i < |q| ensures q[i] == (p + q)[|p| + i] { }
  }

  /** Inserting an item whose id is the counter keeps ids distinct, and below
      the advanced counter. */
  lemma InsertFresh(a: seq<Item>, b: seq<Item>, it: Item)
    requires DistinctIds(a + b) && Below(a + b, it.id)
    ensures DistinctIds(a + [it] + b) && Below(a + [it] + b, it.id + 1)
  {
    var u, t := a + b, a + [it] + b;
    forall i | 0 <= i < |t| && i != |a|
      ensures t[i] == u[if i < |a| then i else i - 1]
    { }
    forall i, j | 0 <= i < j < |t| ensures t[i].id != t[j].id {
      if i == |a| {
        assert t[j] == u[j - 1];
      } else if j == |a| {
        assert t[i] == u[i];
      } else {
        var i', j' := if i < |a| then i else i - 1, if j < |a| then j else j - 1;
        assert t[i] == u[i'] && t[j] == u[j'] && i' < j';
      }
    }
  }

  /** Moving one item to the front keeps ids distinct and below the counter. */
  lemma MoveToFront(a: seq<Item>, x: Item, b: seq<Item>, counter: nat)
    requires DistinctIds(a + [x] + b) && Below(a + [x] + b, counter)
    ensures DistinctIds([x] + a + b) && Below([x] + a + b, counter)
  {
    var s, t := a + [x] + b, [x] + a + b;
    forall i | 0 <= i < |t| ensures t[i] == s[Moved(i, |a|)] { }
    forall i, j | 0 <= i < j < |t| ensures t[i].id != t[j].id {
      assert t[i] == s[Moved(i, |a|)] && t[j] == s[Moved(j, |a|)];
      assert Moved(i, |a|) != Moved(j, |a|);
    }
  }

  /** Where position `i` of `[x] + a + b` came from in `a + [x] + b`, when
      `a` has length `n`. */
  function Moved(i: nat, n: nat): nat {
    if i == 0 then n else if i <= n then i - 1 else i
  }

  // ---------------------------------------------------------------- phases

  /** `webApi.filter((t) => t.id !== id)`: no item with that id is left, and
      a list without such an item is kept as it is. */
  function RemoveId(items: seq<Item>, id: nat): (r: seq<Item>)
    ensures forall i :: 0 <= i < |r| ==> r[i].id != id
    ensures |r| <= |items|
    ensures (forall i :: 0 <= i < |items| ==> items[i].id != id) ==> r == items
  {
    if |items| == 0 then []
    else
      var rest := RemoveId(items[1..], id);
      if items[0].id == id then rest
      else
        var r := [items[0]] + rest;
        assert r[1..] == rest;
        assert items == [items[0]] + items[1..];
        r
  }

  /** The filter keeps exactly the items whose id differs from `id`. */
  lemma {:induction false} RemoveIdMembers(items: seq<Item>, id: nat)
    ensures forall x :: x in RemoveId(items, id) <==> x in items && x.id != id
  {
    if |items| > 0 {
      RemoveIdMembers(items[1..], id);
      assert items == [items[0]] + items[1..];
    }
  }

  /** The filter works item by item, so the kept items stay in their
      order: filtering a concatenation concatenates the filtered parts. */
  lemma {:induction false} RemoveIdAppend(a: seq<Item>, b: seq<Item>, id: nat)
    ensures RemoveId(a + b, id) == RemoveId(a, id) + RemoveId(b, id)
  {
    if |a| == 0 {
      assert a + b == b;
    } else {
      assert (a + b)[0] == a[0];
      assert (a + b)[1..] == a[1..] + b;
      RemoveIdAppend(a[1..], b, id);
    }
  }

  /** On a single item the filter keeps it exactly when its id differs. */
  lemma RemoveIdSingle(x: Item, id: nat)
    ensures RemoveId([x], id) == if x.id == id then [] else [x]
  {
    assert [x][1..] == [];
  }

  /** Filtering out the id of an item just appended, when no other item
      carries it, gives back the list before the append. */
  lemma {:induction false} RemoveIdFresh(w: seq<Item>, it: Item)
    requires forall i :: 0 <= i < |w| ==> w[i].id != it.id
    ensures RemoveId(w + [it], it.id) == w
  {
    if |w| == 0 {
      assert [it][1..] == [];
    } else {
      var v := w + [it];
      assert v[0] == w[0] && v[1..] == w[1..] + [it];
      RemoveIdFresh(w[1..], it);
      assert [w[0]] + w[1..] == w;
    }
  }

  /** `step: prev.step + 1`. */
  function Tick(s: State): State {
    s.(step := s.step + 1)
  }

  /** `callStack: [stackTask]`. */
  function Push(s: State, it: Item): State {
    s.(callStack := [it])
  }

  /** `callStack: [], logs: [...prev.logs, task.label]`. */
  function Retire(s: State, name: string): State {
    s.(callStack := [], logs := s.logs + [name])
  }

  /** `webApi: [...prev.webApi, apiTask]`. */
  function Offer(s: State, it: Item): State {
    s.(webApi := s.webApi + [it])
  }

  /** The move out of the Web API area: the item is filtered out of `webApi`
      by id and appended to the callback queue (a timer) or the microtask
      queue (a promise). */
  function Promote(s: State, it: Item): State
    requires it.tag != SYNC
  {
    var w := RemoveId(s.webApi, it.id);
    if it.tag == TIMEOUT then s.(webApi := w, callbackQueue := s.callbackQueue + [it])
    else s.(webApi := w, microtaskQueue := s.microtaskQueue + [it])
  }

  /** Staging through the Web API area neither duplicates nor loses an item:
      when no item shown carries the new item's id, offering it and then
      moving it out leaves the Web API area as it was and the item last in
      exactly the queue its kind selects. */
  lemma OfferThenPromote(s: State, it: Item)
    requires it.tag != SYNC
    requires forall i :: 0 <= i < |s.webApi| ==> s.webApi[i].id != it.id
    ensures it.tag == TIMEOUT ==> Promote(Offer(s, it), it) == s.(callbackQueue := s.callbackQueue + [it])
    ensures it.tag == PROMISE ==> Promote(Offer(s, it), it) == s.(microtaskQueue := s.microtaskQueue + [it])
  {
    RemoveIdFresh(s.webApi, it);
  }

  /** The event-loop turn of `runEventLoop`. */
  function Drain(s: State): State {
    if |s.microtaskQueue| > 0 then
      s.(microtaskQueue := s.microtaskQueue[1..], callStack := [s.microtaskQueue[0]])
    else if |s.callbackQueue| > 0 then
      s.(callbackQueue := s.callbackQueue[1..], callStack := [s.callbackQueue[0]])
    else s
  }

  /** The drain's priority rule: the ready items, microtasks first and each
      queue in arrival order, form one priority list; if it is empty nothing
      changes, otherwise its head goes onto the call stack and the rest stay
      queued. No timer callback moves while a microtask waits, and nothing
      outside the call stack and the two queues changes. */
  lemma DrainPriority(s: State)
    ensures var r, ready := Drain(s), s.microtaskQueue + s.callbackQueue;
            && (ready == [] ==> r == s)
            && (ready != [] ==> r.callStack == [ready[0]] && r.microtaskQueue + r.callbackQueue == ready[1..])
            && (s.microtaskQueue != [] ==> r.callbackQueue == s.callbackQueue)
            && (s.microtaskQueue == [] ==> r.microtaskQueue == [])
            && r == s.(callStack := r.callStack, microtaskQueue := r.microtaskQueue, callbackQueue := r.callbackQueue)
  {
    if |s.microtaskQueue| > 0 {
      assert (s.microtaskQueue + s.callbackQueue)[1..] == s.microtaskQueue[1..] + s.callbackQueue;
    } else {
      assert s.microtaskQueue + s.callbackQueue == s.callbackQueue;
    }
  }

  /** `callStack: []`: the drained item is discarded without being logged. */
  function Clear(s: State): State {
    s.(callStack := [])
  }

  // ---------------------------------------------------------------- one pass

  /** The `type` of the item `createTask` makes for a task. */
  function TagOf(task: Task): Tag {
    match task
    case Sync(_) => SYNC
    case Macro(_, _) => TIMEOUT
    case Micro(_) => PROMISE
  }

  /** The item made for `task` when the counter holds `counter`: a timer
      keeps its delay, the others get the default 0. */
  function ItemFor(task: Task, counter: nat): Item {
    CreateTask(task.name, TagOf(task), if task.Macro? then task.delay else 0, counter)
  }

  /** The first staging transition: a logging task's item goes onto the call
      stack, a timer's or promise's item into the Web API area. */
  function StageIn(s: State, task: Task, counter: nat): State {
    if task.Sync? then Push(s, ItemFor(task, counter)) else Offer(s, ItemFor(task, counter))
  }

  /** The second staging transition: a logging task leaves the stack and its
      label enters the log; a timer or promise item moves to its queue. */
  function StageOut(s: State, task: Task, counter: nat): State {
    if task.Sync? then Retire(s, task.name) else Promote(s, ItemFor(task, counter))
  }

  /** The five snapshots of one pass of the loop for `task`. */
  function Pass(s: State, task: Task, counter: nat): (t: seq<State>)
    ensures |t| == 5
  {
    var s1 := Tick(s);
    var s2 := StageIn(s1, task, counter);
    var s3 := StageOut(s2, task, counter);
    var s4 := Drain(s3);
    [s1, s2, s3, s4, Clear(s4)]
  }

  /** The labels of the logging tasks, in order. */
  function SyncLabels(tasks: seq<Task>): seq<string> {
    if |tasks| == 0 then []
    else (if tasks[0].Sync? then [tasks[0].name] else []) + SyncLabels(tasks[1..])
  }

  lemma {:induction false} SyncLabelsAppend(a: seq<Task>, b: seq<Task>)
    ensures SyncLabels(a + b) == SyncLabels(a) + SyncLabels(b)
  {
    if |a| == 0 {
      assert a + b == b;
    } else {
      assert (a + b)[0] == a[0];
      assert (a + b)[1..] == a[1..] + b;
      SyncLabelsAppend(a[1..], b);
    }
  }

  /** The labels of a suffix start with its first task's label, when that
      task logs. */
  lemma SyncLabelsAt(q: seq<Task>, i: nat)
    requires i < |q|
    ensures SyncLabels(q[i..]) == (if q[i].Sync? then [q[i].name] else []) + SyncLabels(q[i + 1..])
  {
    assert q[i..][1..] == q[i + 1..];
  }

  /** `b` is a later snapshot than `a` as far as the log and the step show:
      the log only gains entries at its end and the step never falls. */
  predicate Grows(a: State, b: State) {
    a.logs <= b.logs && a.step <= b.step
  }

  /** Each snapshot of `t` extends the log and step of every earlier one,
      starting from `s`. */
  predicate Monotone(s: State, t: seq<State>) {
    && (forall k :: 0 <= k < |t| ==> Grows(s, t[k]))
    && (forall i, j :: 0 <= i < j < |t| ==> Grows(t[i], t[j]))
  }

  /** What a pass does to the counters, whatever the state: the step rises
      by one, the log grows by the task's label if it is a logging task and
      by nothing otherwise, and every snapshot extends the log and the step
      of the ones before it. */
  lemma PassProgress(s: State, task: Task, counter: nat)
    ensures Pass(s, task, counter)[4].step == s.step + 1
    ensures Pass(s, task, counter)[4].logs == s.logs + SyncLabels([task])
    ensures Monotone(s, Pass(s, task, counter))
  {
    assert [task][1..] == [];
    var t := Pass(s, task, counter);
    assert t[0].logs == s.logs && t[1].logs == s.logs;
    assert t[2].logs == t[3].logs == t[4].logs == s.logs + SyncLabels([task]);
  }

  /** From a state that holds no item, a pass leaves none behind either: the
      staged item is queued and drained within the same pass, and the end
      state differs from the start only in its step and its log. */
  lemma PassQuiet(s: State, task: Task, counter: nat)
    requires Quiet(s)
    ensures Pass(s, task, counter)[4] == s.(step := s.step + 1, logs := s.logs + SyncLabels([task]))
  {
    PassProgress(s, task, counter);
    if !task.Sync? {
      OfferThenPromote(Tick(s), ItemFor(task, counter));
    }
  }

  /** Every snapshot of `t` is consistent and shows only ids below
      `counter`. */
  predicate AllGood(t: seq<State>, counter: nat) {
    forall k :: 0 <= k < |t| ==> Good(t[k], counter)
  }

  /** Every snapshot of a pass keeps the structural invariant, and all ids
      stay below the advanced counter, provided the start state is consistent
      and its ids are all below `counter`. */
  lemma PassConsistent(s: State, task: Task, counter: nat)
    requires Good(s, counter)
    ensures AllGood(Pass(s, task, counter), counter + 1)
  {
    var it := ItemFor(task, counter);
    var s1 := Tick(s);
    var s2 := StageIn(s1, task, counter);
    var s3 := StageOut(s2, task, counter);
    var s4 := Drain(s3);
    assert Items(s1) == Items(s);
    assert Good(s1, counter + 1);
    StageConsistent(s1, task, counter);
    DrainConsistent(s3, counter + 1);
    ClearConsistent(s4, counter + 1);
    assert Pass(s, task, counter) == [s1, s2, s3, s4, Clear(s4)];
  }

  /** Both staging snapshots are good when the item gets the fresh id
      `counter`. */
  lemma StageConsistent(s: State, task: Task, counter: nat)
    requires Good(s, counter)
    ensures Good(StageIn(s, task, counter), counter + 1)
    ensures Good(StageOut(StageIn(s, task, counter), task, counter), counter + 1)
  {
    var it := ItemFor(task, counter);
    if task.Sync? {
      SyncStageConsistent(s, it, task.name);
    } else {
      AsyncStageConsistent(s, it);
    }
  }

  /** Staging a logging task with a fresh id keeps both snapshots good. */
  lemma SyncStageConsistent(s: State, it: Item, name: string)
    requires Good(s, it.id)
    ensures Good(Push(s, it), it.id + 1)
    ensures Good(Retire(Push(s, it), name), it.id + 1)
  {
    DropPrefix(s.callStack, Waiting(s), it.id);
    InsertFresh([], Waiting(s), it);
    assert Items(Push(s, it)) == [] + [it] + Waiting(s);
    assert Items(Retire(Push(s, it), name)) == Waiting(s);
  }

  /** Staging a timer or promise task with a fresh id keeps both snapshots
      good: the item is added once and then only moves. */
  lemma AsyncStageConsistent(s: State, it: Item)
    requires it.tag != SYNC
    requires Good(s, it.id)
    ensures Good(Offer(s, it), it.id + 1)
    ensures Good(Promote(Offer(s, it), it), it.id + 1)
  {
    var c, w, m, q := s.callStack, s.webApi, s.microtaskQueue, s.callbackQueue;
    assert Good(Offer(s, it), it.id + 1) by {
      assert Items(s) == (c + w) + (m + q);
      InsertFresh(c + w, m + q, it);
      assert Items(Offer(s, it)) == (c + w) + [it] + (m + q);
    }
    forall i | 0 <= i < |w| ensures w[i].id != it.id {
      assert w[i] == Items(s)[|c| + i];
    }
    OfferThenPromote(s, it);
    EnqueueFresh(s, it);
  }

  /** Appending an item with a fresh id to either queue keeps the snapshot
      good. */
  lemma EnqueueFresh(s: State, it: Item)
    requires Good(s, it.id)
    ensures Good(s.(callbackQueue := s.callbackQueue + [it]), it.id + 1)
    ensures Good(s.(microtaskQueue := s.microtaskQueue + [it]), it.id + 1)
  {
    var c, w, m, q := s.callStack, s.webApi, s.microtaskQueue, s.callbackQueue;
    assert Good(s.(callbackQueue := q + [it]), it.id + 1) by {
      assert Items(s) == (c + w + m + q) + [];
      InsertFresh(c + w + m + q, [], it);
      assert Items(s.(callbackQueue := q + [it])) == (c + w + m + q) + [it] + [];
    }
    assert Items(s) == (c + w + m) + q;
    InsertFresh(c + w + m, q, it);
    assert Items(s.(microtaskQueue := m + [it])) == (c + w + m) + [it] + q;
  }

  /** The drain keeps the structural invariant: the item it takes leaves its
      queue as it enters the call stack, and whatever the stack held is
      dropped. */
  lemma DrainConsistent(s: State, counter: nat)
    requires Good(s, counter)
    ensures Good(Drain(s), counter)
  {
    var c, w, m, q := s.callStack, s.webApi, s.microtaskQueue, s.callbackQueue;
    DropPrefix(c, Waiting(s), counter);
    if m != [] {
      assert Waiting(s) == w + [m[0]] + (m[1..] + q);
      MoveToFront(w, m[0], m[1..] + q, counter);
      assert Items(Drain(s)) == [m[0]] + w + (m[1..] + q);
    } else if q != [] {
      assert Waiting(s) == w + [q[0]] + q[1..];
      MoveToFront(w, q[0], q[1..], counter);
      assert Items(Drain(s)) == [q[0]] + w + q[1..];
    }
  }

  /** Clearing the call stack keeps the invariant. */
  lemma ClearConsistent(s: State, counter: nat)
    requires Good(s, counter)
    ensures Good(Clear(s), counter)
  {
    DropPrefix(s.callStack, Waiting(s), counter);
    assert Items(Clear(s)) == Waiting(s);
  }

  // ---------------------------------------------------------------- the loop

  /** One turn of `while (taskQueue.current.length > 0)`: shift the next task
      off the backlog and make its pass, with the next id from the counter. */
  function Advance(h: Hook): (r: Hook)
    requires h.taskQueue != []
    ensures |r.taskQueue| == |h.taskQueue| - 1
  {
    Hook(Pass(h.state, h.taskQueue[0], h.idCounter)[4], h.taskQueue[1..], h.idCounter + 1)
  }

  /** `runEventLoop`: passes until the backlog is empty, then
      `isRunning: false`. The pause flag is never consulted. */
  function Loop(h: Hook): Hook
    decreases |h.taskQueue|
  {
    if h.taskQueue == [] then h.(state := h.state.(isRunning := false))
    else Loop(Advance(h))
  }

  /** Every snapshot `runEventLoop` produces, in order: five per task, then
      the one that clears `isRunning`, which is the loop's final state. */
  function LoopTrace(h: Hook): (t: seq<State>)
    ensures |t| == 5 * |h.taskQueue| + 1
    ensures t[|t| - 1] == Loop(h).state
    decreases |h.taskQueue|
  {
    if h.taskQueue == [] then [h.state.(isRunning := false)]
    else
      var p := Pass(h.state, h.taskQueue[0], h.idCounter);
      assert Advance(h).state == p[|p| - 1];
      p + LoopTrace(Advance(h))
  }

  /** What a whole loop does to the counters, from any state: the step rises
      by exactly one per task shifted, the log gains exactly the labels of
      the logging tasks in backlog order, the counter hands out one id per
      task, and the backlog ends empty with `isRunning` false. */
  lemma {:induction false} LoopCounts(h: Hook)
    ensures Loop(h).state.step == h.state.step + |h.taskQueue|
    ensures Loop(h).state.logs == h.state.logs + SyncLabels(h.taskQueue)
    ensures Loop(h).idCounter == h.idCounter + |h.taskQueue|
    ensures Loop(h).taskQueue == [] && !Loop(h).state.isRunning
  {
    LoopSteps(h);
    LoopLogs(h);
  }

  /** The step and counter rise by one per task, and the loop stops with
      an empty backlog and `isRunning` false. */
  lemma {:induction false} LoopSteps(h: Hook)
    ensures Loop(h).state.step == h.state.step + |h.taskQueue|
    ensures Loop(h).idCounter == h.idCounter + |h.taskQueue|
    ensures Loop(h).taskQueue == [] && !Loop(h).state.isRunning
    decreases |h.taskQueue|
  {
    if h.taskQueue != [] {
      AdvanceProgress(h);
      LoopSteps(Advance(h));
    }
  }

  /** The log gains the labels of the logging tasks, in backlog order. */
  lemma {:induction false} LoopLogs(h: Hook)
    ensures Loop(h).state.logs == h.state.logs + SyncLabels(h.taskQueue)
    decreases |h.taskQueue|
  {
    if h.taskQueue != [] {
      var q := h.taskQueue;
      var a := Advance(h);
      AdvanceProgress(h);
      LoopLogs(a);
      SyncLabelsAt(q, 0);
      assert q[0..] == q;
      var A, B, C := h.state.logs, SyncLabels([q[0]]), SyncLabels(q[1..]);
      assert SyncLabels([q[0]]) == (if q[0].Sync? then [q[0].name] else []) by {
        SyncLabelsAt([q[0]], 0);
      }
      assert Loop(a).state.logs == (A + B) + C;
      assert (A + B) + C == A + (B + C);
    }
  }

  /** One turn of the loop moves the step, the log and the counter as one
      pass does. */
  lemma AdvanceProgress(h: Hook)
    requires h.taskQueue != []
    ensures Advance(h).state.step == h.state.step + 1
    ensures Advance(h).state.logs == h.state.logs + SyncLabels([h.taskQueue[0]])
    ensures Advance(h).taskQueue == h.taskQueue[1..]
    ensures Advance(h).idCounter == h.idCounter + 1
    ensures Loop(h) == Loop(Advance(h))
  {
    PassProgress(h.state, h.taskQueue[0], h.idCounter);
  }

  /** From a state that holds no item, the loop leaves none behind and
      changes nothing but the step, the log and `isRunning`. */
  lemma {:induction false} LoopQuiet(h: Hook)
    requires Quiet(h.state)
    ensures Loop(h).state == h.state.(step := Loop(h).state.step, logs := Loop(h).state.logs, isRunning := false)
    decreases |h.taskQueue|
  {
    if h.taskQueue != [] {
      PassQuiet(h.state, h.taskQueue[0], h.idCounter);
      LoopQuiet(Advance(h));
    }
  }

  /** Every snapshot of the loop has at most one call-stack frame and no
      item in two places, and shows only ids the counter has handed out,
      when the loop starts from such a state. */
  lemma {:induction false} LoopTraceGood(h: Hook)
    requires Good(h.state, h.idCounter)
    ensures AllGood(LoopTrace(h), h.idCounter + |h.taskQueue|)
    decreases |h.taskQueue|
  {
    var t := LoopTrace(h);
    var n := h.idCounter + |h.taskQueue|;
    if h.taskQueue != [] {
      var p := Pass(h.state, h.taskQueue[0], h.idCounter);
      PassConsistent(h.state, h.taskQueue[0], h.idCounter);
      var h' := Advance(h);
      LoopTraceGood(h');
      forall k | 0 <= k < |t| ensures Good(t[k], n) {
        if k < 5 {
          assert t[k] == p[k];
          assert Good(p[k], h.idCounter + 1);
        } else {
          assert t[k] == LoopTrace(h')[k - 5];
        }
      }
    }
  }

  /** Over a whole loop the log is append-only and the step never falls:
      every snapshot extends the log of every earlier snapshot. */
  lemma {:induction false} LoopTraceMonotone(h: Hook)
    ensures Monotone(h.state, LoopTrace(h))
    decreases |h.taskQueue|
  {
    if h.taskQueue != [] {
      var p := Pass(h.state, h.taskQueue[0], h.idCounter);
      PassProgress(h.state, h.taskQueue[0], h.idCounter);
      LoopTraceMonotone(Advance(h));
      MonotoneAppend(h.state, p, LoopTrace(Advance(h)));
    }
  }

  /** Monotone runs glue: a run that continues from the last snapshot of a
      monotone run extends it monotonically. */
  lemma MonotoneAppend(s: State, p: seq<State>, r: seq<State>)
    requires |p| > 0 && Monotone(s, p) && Monotone(p[|p| - 1], r)
    ensures Monotone(s, p + r)
  {
    var t := p + r;
    var m := p[|p| - 1];
    forall k | 0 <= k < |t| ensures Grows(s, t[k]) {
      if k >= |p| { assert t[k] == r[k - |p|]; }
    }
    forall i, j | 0 <= i < j < |t| ensures Grows(t[i], t[j]) {
      if j >= |p| {
        assert t[j] == r[j - |p|];
        if i >= |p| {
          assert t[i] == r[i - |p|];
        } else {
          assert i == |p| - 1 || Grows(p[i], m);
        }
      }
    }
  }

  // ---------------------------------------------------------------- control

  /** `reset`: the backlog is dropped and the record is written back to the
      empty initial one, whatever it held; the id counter is left alone. */
  function Reset(h: Hook): (r: Hook)
    ensures Quiet(r.state) && r.state.logs == [] && r.state.step == 0
    ensures !r.state.isRunning && !r.state.isPaused
    ensures r.taskQueue == [] && r.idCounter == h.idCounter
  {
    Hook(Initial, [], h.idCounter)
  }

  /** Resetting twice is resetting once, and every reset of hooks with the
      same counter yields the same hook. */
  lemma ResetIdempotent(h: Hook, g: Hook)
    ensures Reset(Reset(h)) == Reset(h)
    ensures h.idCounter == g.idCounter ==> Reset(h) == Reset(g)
  {
  }

  /** What `run(code)` sets up before the loop starts: a reset, the parsed
      tasks as the backlog, and `isRunning: true`. */
  function Start(h: Hook, code: string): Hook {
    var r := Reset(h);
    Hook(r.state.(isRunning := true), ParseCode(code), r.idCounter)
  }

  /** `run(code)` driven to completion: the log holds exactly the labels of
      the logging tasks of the program in line order, the step equals the
      number of parsed tasks, no item remains anywhere, nothing is running,
      and one id was used per task. */
  function Run(h: Hook, code: string): (r: Hook)
    ensures r.state.logs == SyncLabels(ParseCode(code))
    ensures r.state.step == |ParseCode(code)|
    ensures Quiet(r.state) && !r.state.isRunning && !r.state.isPaused
    ensures r.taskQueue == [] && r.idCounter == h.idCounter + |ParseCode(code)|
  {
    var s := Start(h, code);
    LoopCounts(s);
    LoopQuiet(s);
    Loop(s)
  }

  /** Every record a `setState` update of a run produces, in order: the
      reset record, the record with `isRunning` set, then the loop's
      records. React renders a subsequence of them, chosen by the awaits;
      the invariants below hold for every record, hence for those rendered. */
  function RunTrace(h: Hook, code: string): seq<State> {
    [Reset(h).state, Start(h, code).state] + LoopTrace(Start(h, code))
  }

  /** Throughout a run every snapshot has at most one call-stack frame and
      never shows an item twice; the log only grows and the step never
      falls from one snapshot to the next; the last snapshot is the final
      state of the run. */
  lemma RunTraceFacts(h: Hook, code: string)
    ensures forall k :: 0 <= k < |RunTrace(h, code)| ==> Consistent(RunTrace(h, code)[k])
    ensures forall i, j :: 0 <= i < j < |RunTrace(h, code)| ==> Grows(RunTrace(h, code)[i], RunTrace(h, code)[j])
    ensures RunTrace(h, code)[|RunTrace(h, code)| - 1] == Run(h, code).state
  {
    var g := Start(h, code);
    StartedConsistent(g);
    StartedMonotone(g);
  }

  /** Consistency of every snapshot of a run, for any backlog, once the
      record is the initial one with `isRunning` set. */
  lemma StartedConsistent(g: Hook)
    requires g.state == Initial.(isRunning := true)
    ensures forall k :: 0 <= k < |[Initial, g.state] + LoopTrace(g)| ==> Consistent(([Initial, g.state] + LoopTrace(g))[k])
  {
    var t := [Initial, g.state] + LoopTrace(g);
    var l := LoopTrace(g);
    assert Good(g.state, g.idCounter) && Consistent(Initial) by {
      assert Items(g.state) == [] && Items(Initial) == [];
    }
    LoopTraceGood(g);
    forall k | 0 <= k < |t| ensures Consistent(t[k]) {
      if k >= 2 { assert t[k] == l[k - 2]; }
    }
  }

  /** Monotonicity of a run's snapshots, for any backlog, once the record
      is the initial one with `isRunning` set. */
  lemma StartedMonotone(g: Hook)
    requires g.state == Initial.(isRunning := true)
    ensures Monotone(Initial, [Initial, g.state] + LoopTrace(g))
  {
    LoopTraceMonotone(g);
    MonotoneAfterTwo(Initial, g.state, LoopTrace(g));
  }

  /** A monotone run from `b`, preceded by `a` and `b` where `b` extends
      `a`, is monotone from `a`. */
  lemma MonotoneAfterTwo(a: State, b: State, l: seq<State>)
    requires Grows(a, b) && Monotone(b, l)
    ensures Monotone(a, [a, b] + l)
  {
    assert Monotone(a, [a, b]);
    MonotoneAppend(a, [a, b], l);
  }
}
