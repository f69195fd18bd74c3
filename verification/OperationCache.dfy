/**
 The operation cache (lib/core/joperation-cache.c): clients hand batches to one worker thread
 through a queue; a flag says whether the worker has something to do, and `flush` waits on a
 condition variable until the flag is down.

 `j_operation_cache_add` raises the flag under the mutex (lines 353-355) and pushes the batch
 later, outside of it (line 361). Both the code's two-step form (Mark, then Enqueue) and the form in
 which the two happen at once (AddAtOnce) are steps of the model, so that the two can be compared.
 */
module OperationCache {
  import opened Basics

  type Tid = nat
  type Batch = nat

  datatype Worker =
    | Resting                // blocked in g_async_queue_pop, or about to call it
    | Running(batch: Batch)  // popped, executing
    | Ran(batch: Batch)      // executed, about to update the flag

  datatype Client =
    | Free
    | Marked(batch: Batch)   // raised the flag, has yet to push
    | Waiting                // in g_cond_wait
    | Woken                  // woken up, about to look at the flag again

  type Clients = map<Tid, Client>

  datatype State = State(
    working: bool,
    queue: seq<Batch>,
    worker: Worker,
    clients: Clients,
    pushed: seq<Batch>,    // every batch ever pushed, in order
    executed: seq<Batch>)  // every batch executed so far, in order

  datatype Step =
    | Join(c: Tid)
    | Mark(c: Tid, batch: Batch)
    | Enqueue(c: Tid)
    | AddAtOnce(c: Tid, batch: Batch)
    | Dequeue
    | Execute
    | Finish(woken: Option<Tid>)   // flag := queue is not empty; signals one waiter when it goes down
    | FlushWaits(c: Tid)
    | FlushReturns(c: Tid)
    | SpuriousWakeup(c: Tid)

  const Init := State(false, [], Resting, map[], [], [])

  function Waiters(clients: Clients): set<Tid> { set c | c in clients && clients[c].Waiting? }

  predicate Enabled(s: State, step: Step) {
    match step
    case Join(c) => c !in s.clients
    case Mark(c, _) => c in s.clients && s.clients[c].Free?
    case Enqueue(c) => c in s.clients && s.clients[c].Marked?
    case AddAtOnce(c, _) => c in s.clients && s.clients[c].Free?
    case Dequeue => s.worker.Resting? && s.queue != []
    case Execute => s.worker.Running?
    case Finish(w) =>
      s.worker.Ran? &&
      (if s.queue != [] || Waiters(s.clients) == {} then w.None? else w.Some? && w.value in Waiters(s.clients))
    case FlushWaits(c) => c in s.clients && (s.clients[c].Free? || s.clients[c].Woken?) && s.working
    case FlushReturns(c) => c in s.clients && (s.clients[c].Free? || s.clients[c].Woken?) && !s.working
    case SpuriousWakeup(c) => c in s.clients && s.clients[c].Waiting?
  }

  function Goto(s: State, c: Tid, client: Client): State { s.(clients := s.clients[c := client]) }

  function Apply(s: State, step: Step): State
    requires Enabled(s, step)
  {
    match step
    case Join(c) => Goto(s, c, Free)
    case Mark(c, b) => Goto(s, c, Marked(b)).(working := true)
    case Enqueue(c) =>
      var b := s.clients[c].batch;
      Goto(s, c, Free).(queue := s.queue + [b], pushed := s.pushed + [b])
    case AddAtOnce(c, b) => s.(working := true, queue := s.queue + [b], pushed := s.pushed + [b])
    case Dequeue => s.(worker := Running(s.queue[0]), queue := s.queue[1..])
    case Execute => s.(worker := Ran(s.worker.batch), executed := s.executed + [s.worker.batch])
    case Finish(w) =>
      var s' := s.(worker := Resting, working := s.queue != []);
      if w.Some? then Goto(s', w.value, Woken) else s'
    case FlushWaits(c) => Goto(s, c, Waiting)
    case FlushReturns(c) => Goto(s, c, Free)
    case SpuriousWakeup(c) => Goto(s, c, Woken)
  }

  ghost predicate IsRun(run: seq<State>, steps: seq<Step>) {
    && |run| == |steps| + 1
    && run[0] == Init
    && forall i {:trigger steps[i]} :: 0 <= i < |steps| ==> Enabled(run[i], steps[i]) && run[i + 1] == Apply(run[i], steps[i])
  }

  // ----- Every batch runs once, in push order -----

  function InHand(w: Worker): seq<Batch> { if w.Running? then [w.batch] else [] }

  predicate Ordered(s: State) { s.executed + InHand(s.worker) + s.queue == s.pushed }

  lemma StepOrdered(s: State, step: Step)
    requires Ordered(s) && Enabled(s, step)
    ensures Ordered(Apply(s, step))
  {
    var s' := Apply(s, step);
    if step.Dequeue? {
      assert s.queue == [s.queue[0]] + s.queue[1..];
    }
    assert s'.executed + InHand(s'.worker) + s'.queue == s'.pushed;
  }

  /** Batches are executed exactly once and in the order they were pushed: what was executed, what the
      worker has in hand and what is queued are, one after the other, what was pushed. */
  lemma {:induction false} ExecutedOnceInOrder(run: seq<State>, steps: seq<Step>, i: nat)
    requires IsRun(run, steps) && i < |run|
    ensures run[i].executed + InHand(run[i].worker) + run[i].queue == run[i].pushed
  {
    if i > 0 {
      ExecutedOnceInOrder(run, steps, i - 1);
      StepOrdered(run[i - 1], steps[i - 1]);
    }
  }

  // ----- flush as a synchronisation point -----

  /** Some batch is queued or in the worker's hands. */
  predicate Pending(s: State) { s.queue != [] || !s.worker.Resting? }

  /** A flush would return although work is pending. */
  predicate Early(s: State) { Pending(s) && !s.working }

  predicate AddsAtOnce(steps: seq<Step>) { forall i :: 0 <= i < |steps| ==> !steps[i].Mark? && !steps[i].Enqueue? }

  predicate SetsFlag(step: Step) { step.Mark? || step.AddAtOnce? || step.Finish? }

  /** The one way in which the flag comes to be down while work is pending. */
  lemma StepEarly(s: State, step: Step)
    requires Enabled(s, step)
    ensures Early(Apply(s, step)) <==> (Early(s) && !SetsFlag(step)) || (step.Enqueue? && !s.working)
  {
    if step.Dequeue? { assert s.queue == [s.queue[0]] + s.queue[1..]; }
  }

  lemma {:induction false} NeverEarly(run: seq<State>, steps: seq<Step>, i: nat)
    requires IsRun(run, steps) && AddsAtOnce(steps) && i < |run|
    ensures !Early(run[i])
  {
    if i > 0 {
      NeverEarly(run, steps, i - 1);
      StepEarly(run[i - 1], steps[i - 1]);
    }
  }

  /** In step `i`, the flush of client `c` is over: it has been waiting, or has only just begun, and waits no more. */
  ghost predicate EndsFlush(run: seq<State>, steps: seq<Step>, i: nat, c: Tid)
    requires |run| == |steps| + 1 && i < |steps|
  {
    && c in run[i].clients && c in run[i + 1].clients && run[i + 1].clients[c].Free?
    && (run[i].clients[c].Waiting? || run[i].clients[c].Woken? || steps[i] == FlushReturns(c))
  }

  /** However often a thread has slept, its flush is over only when it has seen the flag down. */
  lemma FlushSeesFlagDown(run: seq<State>, steps: seq<Step>, i: nat, c: Tid)
    requires IsRun(run, steps) && i < |steps| && EndsFlush(run, steps, i, c)
    ensures !run[i].working && steps[i] == FlushReturns(c)
  {
    assert Enabled(run[i], steps[i]);
  }

  /** What a thread does when it looks at the flag, at first and after every wakeup: it sleeps while the flag is up. */
  lemma FlushLooks(s: State, c: Tid)
    requires c in s.clients && (s.clients[c].Free? || s.clients[c].Woken?)
    ensures s.working ==> Enabled(s, FlushWaits(c)) && !Enabled(s, FlushReturns(c)) && Apply(s, FlushWaits(c)) == s.(clients := s.clients[c := Waiting])
    ensures !s.working ==> Enabled(s, FlushReturns(c)) && !Enabled(s, FlushWaits(c)) && Apply(s, FlushReturns(c)) == s.(clients := s.clients[c := Free])
  {}

  /** A thread that sleeps may wake up for no reason; then it is about to look at the flag. */
  lemma MayWake(s: State, c: Tid)
    requires c in s.clients && s.clients[c].Waiting?
    ensures Enabled(s, SpuriousWakeup(c)) && Apply(s, SpuriousWakeup(c)) == s.(clients := s.clients[c := Woken])
  {}

  /** If raising the flag and pushing were one step, a flush would be over only when the queue is empty,
      the worker is idle and every batch pushed so far has been executed. */
  lemma FlushSynchronises(run: seq<State>, steps: seq<Step>, i: nat, c: Tid)
    requires IsRun(run, steps) && AddsAtOnce(steps) && i < |steps| && EndsFlush(run, steps, i, c)
    ensures run[i].queue == [] && run[i].worker.Resting? && run[i].executed == run[i].pushed
  {
    FlushSeesFlagDown(run, steps, i, c);
    NeverEarly(run, steps, i);
    ExecutedOnceInOrder(run, steps, i);
  }

  /** Step `j` pushes with the flag down, and nothing sets the flag between it and state `i`. */
  ghost predicate UnmarkedPush(run: seq<State>, steps: seq<Step>, j: int, i: nat)
    requires |run| == |steps| + 1 && i < |run|
  {
    0 <= j < i && steps[j].Enqueue? && !run[j].working && forall k :: j < k < i ==> !SetsFlag(steps[k])
  }

  /** For the code as written: flush can return early in a state exactly when a push found the flag
      already down again (the worker finished between the two steps of add) and neither another add nor
      a worker finish has set the flag since. */
  lemma {:induction false} EarlyIffUnmarkedPush(run: seq<State>, steps: seq<Step>, i: nat)
    requires IsRun(run, steps) && i < |run|
    ensures Early(run[i]) <==> exists j :: UnmarkedPush(run, steps, j, i)
  {
    if i > 0 {
      EarlyIffUnmarkedPush(run, steps, i - 1);
      StepEarly(run[i - 1], steps[i - 1]);
      if Early(run[i]) {
        if Early(run[i - 1]) && !SetsFlag(steps[i - 1]) {
          var j :| UnmarkedPush(run, steps, j, i - 1);
          assert UnmarkedPush(run, steps, j, i);
        } else {
          assert UnmarkedPush(run, steps, i - 1, i);
        }
      }
      if j :| UnmarkedPush(run, steps, j, i) {
        assert j < i - 1 ==> UnmarkedPush(run, steps, j, i - 1) && !SetsFlag(steps[i - 1]);
      }
    }
  }

  /** Step `f` finishes a batch with an empty queue, and nothing sets the flag between it and state `i`. */
  ghost predicate LastFinish(run: seq<State>, steps: seq<Step>, f: int, i: nat)
    requires |run| == |steps| + 1 && i < |run|
  {
    0 <= f < i && steps[f].Finish? && run[f].queue == [] && forall k :: f < k < i ==> !SetsFlag(steps[k])
  }

  lemma StepFlag(s: State, step: Step)
    requires Enabled(s, step)
    ensures Apply(s, step).working == if SetsFlag(step) then !(step.Finish? && s.queue == []) else s.working
  {}

  /** When is the flag down at a push? Exactly when, after the client raised it, the worker finished a batch
      with an empty queue, and nothing has set the flag since. */
  lemma {:induction false} UnmarkedIffFinishBetween(run: seq<State>, steps: seq<Step>, m: nat, i: nat)
    requires IsRun(run, steps) && m < i < |run| && steps[m].Mark?
    ensures !run[i].working <==> exists f :: m < f && LastFinish(run, steps, f, i)
  {
    StepFlag(run[i - 1], steps[i - 1]);
    if i - 1 > m {
      UnmarkedIffFinishBetween(run, steps, m, i - 1);
      if !run[i].working {
        if SetsFlag(steps[i - 1]) {
          assert LastFinish(run, steps, i - 1, i);
        } else {
          var f :| m < f && LastFinish(run, steps, f, i - 1);
          assert LastFinish(run, steps, f, i);
        }
      }
      if f :| m < f && LastFinish(run, steps, f, i) {
        assert f < i - 1 ==> LastFinish(run, steps, f, i - 1) && !SetsFlag(steps[i - 1]);
      }
    }
  }

  /** The pushes that found the flag down since it was last written. */
  function Unmarked(run: seq<State>, steps: seq<Step>, i: nat): nat
    requires |run| == |steps| + 1 && i < |run|
  {
    if i == 0 || SetsFlag(steps[i - 1]) then 0
    else Unmarked(run, steps, i - 1) + if steps[i - 1].Enqueue? && !run[i - 1].working then 1 else 0
  }

  /** The batches executed since the flag was last written. */
  function ExecutedSince(steps: seq<Step>, i: nat): nat
    requires i <= |steps|
  {
    if i == 0 || SetsFlag(steps[i - 1]) then 0
    else ExecutedSince(steps, i - 1) + if steps[i - 1].Execute? then 1 else 0
  }

  /** While the flag is down, what is left to execute are the pushes that found it down. */
  predicate Accounted(s: State, unmarked: nat, executed: nat) {
    && |s.queue| + (if s.worker.Resting? then 0 else 1) == unmarked
    && executed == if s.worker.Ran? then 1 else 0
  }

  lemma StepAccounted(s: State, step: Step, unmarked: nat, executed: nat)
    requires Enabled(s, step) && !Apply(s, step).working
    requires !SetsFlag(step) ==> Accounted(s, unmarked, executed)
    ensures if SetsFlag(step) then Accounted(Apply(s, step), 0, 0)
            else Accounted(Apply(s, step), unmarked + (if step.Enqueue? && !s.working then 1 else 0),
                           executed + if step.Execute? then 1 else 0)
  {}

  lemma {:induction false} DownAccounted(run: seq<State>, steps: seq<Step>, i: nat)
    requires IsRun(run, steps) && i < |run| && !run[i].working
    ensures Accounted(run[i], Unmarked(run, steps, i), ExecutedSince(steps, i))
  {
    if i > 0 {
      if !SetsFlag(steps[i - 1]) {
        StepFlag(run[i - 1], steps[i - 1]);
        DownAccounted(run, steps, i - 1);
      }
      StepAccounted(run[i - 1], steps[i - 1], Unmarked(run, steps, i - 1), ExecutedSince(steps, i - 1));
    }
  }

  /** A flush is a barrier exactly as far as no push found the flag down: when it returns, the batches that
      were pushed and not executed are as many as the pushes that found the flag down since it was last
      written, less what was executed since. So an immediate batch, which runs after its flush, runs
      after every eventual batch that was handed over before it, by whomever, if and only if the two numbers
      are equal. */
  lemma {:induction false} BarrierIffNoneUnmarked(run: seq<State>, steps: seq<Step>, i: nat, c: Tid)
    requires IsRun(run, steps) && i < |steps| && EndsFlush(run, steps, i, c)
    ensures |run[i].pushed| - |run[i].executed| == Unmarked(run, steps, i) - ExecutedSince(steps, i)
    ensures run[i].executed == run[i].pushed <==> Unmarked(run, steps, i) == ExecutedSince(steps, i)
    ensures AddsAtOnce(steps) ==> Unmarked(run, steps, i) == 0
  {
    FlushSeesFlagDown(run, steps, i, c);
    DownAccounted(run, steps, i);
    ExecutedOnceInOrder(run, steps, i);
    NothingUnmarked(run, steps, i);
  }

  lemma {:induction false} NothingUnmarked(run: seq<State>, steps: seq<Step>, i: nat)
    requires |run| == |steps| + 1 && i < |run|
    ensures AddsAtOnce(steps) ==> Unmarked(run, steps, i) == 0
  {
    if i > 0 { NothingUnmarked(run, steps, i - 1); }
  }

  /** The batches whose buffers the worker has yet to release. */
  function Unreleased(s: State): nat { |s.queue| + |InHand(s.worker)| }

  /** j_operation_cache_fini clears the global pointer after its flush, and the worker goes through that
      pointer to release the buffer of every batch. When the flush of fini returns, the worker has as many
      batches to release as pushes found the flag down since it was last written, less those executed
      since. If raising the flag and pushing were one step, there would be none. */
  lemma {:induction false} ShutdownFindsWork(run: seq<State>, steps: seq<Step>, i: nat, c: Tid)
    requires IsRun(run, steps) && i < |steps| && EndsFlush(run, steps, i, c)
    ensures Unreleased(run[i]) == Unmarked(run, steps, i) - ExecutedSince(steps, i)
    ensures AddsAtOnce(steps) ==> Unreleased(run[i]) == 0
  {
    FlushSeesFlagDown(run, steps, i, c);
    DownAccounted(run, steps, i);
    if AddsAtOnce(steps) { FlushSynchronises(run, steps, i, c); }
  }

  /** One more step at the end of a run. */
  lemma Extend(run: seq<State>, steps: seq<Step>, step: Step) returns (run': seq<State>, steps': seq<Step>)
    requires IsRun(run, steps) && Enabled(run[|steps|], step)
    ensures steps' == steps + [step] && run' == run + [Apply(run[|steps|], step)] && IsRun(run', steps')
  {
    run', steps' := run + [Apply(run[|steps|], step)], steps + [step];
    forall i {:trigger steps'[i]} | 0 <= i < |steps'| ensures Enabled(run'[i], steps'[i]) && run'[i + 1] == Apply(run'[i], steps'[i]) {
      if i < |steps| { assert steps'[i] == steps[i]; }
    }
  }

  lemma FirstBatchRan() returns (run: seq<State>, steps: seq<Step>)
    ensures IsRun(run, steps) && run[|steps|] == State(true, [], Ran(0), map[7 := Free], [0], [0])
  {
    run, steps := Extend([Init], [], Join(7));
    run, steps := Extend(run, steps, Mark(7, 0));
    run, steps := Extend(run, steps, Enqueue(7));
    assert run[|steps|] == State(true, [0], Resting, map[7 := Free], [0], []);
    run, steps := Extend(run, steps, Dequeue);
    run, steps := Extend(run, steps, Execute);
  }

  /** Such a run: the worker finishes batch 0 after the flag was raised for batch 1 and before batch 1 is
      pushed; the client's next flush returns although batch 1 has not been executed. */
  lemma EarlyFlushRun() returns (run: seq<State>, steps: seq<Step>)
    ensures IsRun(run, steps) && |steps| > 0 && steps[|steps| - 1].FlushReturns?
    ensures var s := run[|steps|]; s.pushed == [0, 1] && s.executed == [0] && s.queue == [1]
  {
    run, steps := FirstBatchRan();
    run, steps := Extend(run, steps, Mark(7, 1));
    run, steps := Extend(run, steps, Finish(None));
    run, steps := Extend(run, steps, Enqueue(7));
    run, steps := Extend(run, steps, FlushReturns(7));
  }

  // ----- Waking up the threads that flush -----

  /** Some flush is left waiting although the flag is down. */
  predicate Stuck(s: State) { !s.working && Waiters(s.clients) != {} }

  lemma WaitersUpdate(clients: Clients, c: Tid, client: Client)
    ensures Waiters(clients[c := client]) ==
            (if client.Waiting? then Waiters(clients) + {c} else Waiters(clients) - {c})
  {}

  lemma StepStuck(s: State, step: Step)
    requires Enabled(s, step) && !Stuck(s)
    ensures Stuck(Apply(s, step)) <==> step.Finish? && s.queue == [] && |Waiters(s.clients)| >= 2
  {
    match step
    case Finish(w) =>
      if w.Some? {
        WaitersUpdate(s.clients, w.value, Woken);
        assert Waiters(s.clients) == {w.value} + (Waiters(s.clients) - {w.value});
      }
    case Join(c) => WaitersUpdate(s.clients, c, Free);
    case Enqueue(c) => WaitersUpdate(s.clients, c, Free);
    case FlushReturns(c) => WaitersUpdate(s.clients, c, Free);
    case SpuriousWakeup(c) => WaitersUpdate(s.clients, c, Woken);
    case _ =>
  }

  /** The worker has finished the last batch while two or more threads flush. */
  predicate Abandons(s: State, step: Step) { step.Finish? && s.queue == [] && |Waiters(s.clients)| >= 2 }

  /** The worker signals one waiter only: some flush has been left waiting with the flag down by state `i` if and
      only if the worker has finished the last batch, by then, while two or more threads were flushing. */
  lemma {:induction false} LostWakeup(run: seq<State>, steps: seq<Step>, i: nat)
    requires IsRun(run, steps) && i < |run|
    ensures (exists k :: 0 <= k <= i && Stuck(run[k])) <==> (exists k :: 0 <= k < i && Abandons(run[k], steps[k]))
  {
    if i == 0 {
      assert Waiters(Init.clients) == {};
    } else {
      LostWakeup(run, steps, i - 1);
      NextStuck(run, steps, i - 1, i);
      OneStateMore(run, steps, i);
    }
  }

  lemma NextStuck(run: seq<State>, steps: seq<Step>, k: nat, i: nat)
    requires IsRun(run, steps) && i == k + 1 < |run|
    ensures !Stuck(run[k]) ==> (Stuck(run[i]) <==> Abandons(run[k], steps[k]))
  {
    if !Stuck(run[k]) { StepStuck(run[k], steps[k]); }
  }

  lemma OneStateMore(run: seq<State>, steps: seq<Step>, i: nat)
    requires 0 < i < |run| == |steps| + 1
    ensures (exists k :: 0 <= k <= i && Stuck(run[k])) <==> (exists k :: 0 <= k <= i - 1 && Stuck(run[k])) || Stuck(run[i])
    ensures (exists k :: 0 <= k < i && Abandons(run[k], steps[k]))
       <==> (exists k :: 0 <= k < i - 1 && Abandons(run[k], steps[k])) || Abandons(run[i - 1], steps[i - 1])
  {}

  /** Two clients flush, the worker finishes the only batch and wakes one of them; the other sleeps on. */
  lemma LostWakeupRun() returns (run: seq<State>, steps: seq<Step>)
    ensures IsRun(run, steps) && Stuck(run[|steps|])
    ensures var s := run[|steps|]; s.queue == [] && s.worker.Resting? && 8 in s.clients && s.clients[8] == Waiting
  {
    run, steps := FirstBatchRan();
    run, steps := Extend(run, steps, Join(8));
    run, steps := Extend(run, steps, FlushWaits(7));
    run, steps := Extend(run, steps, FlushWaits(8));
    assert run[|steps|].clients == map[7 := Waiting, 8 := Waiting];
    assert Waiters(run[|steps|].clients) == {7, 8};
    run, steps := Extend(run, steps, Finish(Some(7)));
    assert 8 in Waiters(run[|steps|].clients);
  }

  /** The step wakes `c` up. */
  predicate Wakes(step: Step, c: Tid) { step == Finish(Some(c)) || step == SpuriousWakeup(c) }

  lemma StepSleeps(s: State, step: Step, c: Tid)
    requires Enabled(s, step) && c in s.clients && s.clients[c].Waiting? && !Wakes(step, c)
    ensures c in Apply(s, step).clients && Apply(s, step).clients[c].Waiting?
  {}

  /** A thread that sleeps in flush sleeps until the worker signals it or it wakes up for no reason. */
  lemma {:induction false} SleepsUntilWoken(run: seq<State>, steps: seq<Step>, i: nat, j: nat, c: Tid)
    requires IsRun(run, steps) && i <= j < |run| && c in run[i].clients && run[i].clients[c].Waiting?
    requires forall k :: i <= k < j ==> !Wakes(steps[k], c)
    ensures c in run[j].clients && run[j].clients[c].Waiting?
  {
    if i < j {
      SleepsUntilWoken(run, steps, i, j - 1, c);
      StepSleeps(run[j - 1], steps[j - 1], c);
    }
  }

  predicate IsPush(step: Step) { step.Enqueue? || step.AddAtOnce? }

  lemma StepStaysIdle(s: State, step: Step)
    requires Enabled(s, step) && !Pending(s) && !IsPush(step)
    ensures !Pending(Apply(s, step)) && !step.Finish?
  {}

  /** A thread left asleep after the last batch sleeps until the worker finishes another one: as long as nothing
      is pushed it sleeps for ever, spurious wakeups aside. */
  lemma {:induction false} SleepsWithoutWork(run: seq<State>, steps: seq<Step>, i: nat, j: nat, c: Tid)
    requires IsRun(run, steps) && i <= j < |run| && c in run[i].clients && run[i].clients[c].Waiting? && !Pending(run[i])
    requires forall k :: i <= k < j ==> !IsPush(steps[k]) && steps[k] != SpuriousWakeup(c)
    ensures c in run[j].clients && run[j].clients[c].Waiting? && !Pending(run[j])
  {
    if i < j {
      SleepsWithoutWork(run, steps, i, j - 1, c);
      StepStaysIdle(run[j - 1], steps[j - 1]);
      StepSleeps(run[j - 1], steps[j - 1], c);
    }
  }

  // ----- What add delivers, and that everybody can go on -----

  /** Between its two steps, an add waits for nothing and nobody takes its batch away; the second step pushes it. */
  lemma {:induction false} AddDelivers(run: seq<State>, steps: seq<Step>, c: Tid, b: Batch, i: nat, j: nat)
    requires IsRun(run, steps) && i < j < |run| && steps[i] == Mark(c, b)
    requires forall k :: i < k < j ==> c in run[k].clients && !run[k].clients[c].Free?
    ensures c in run[j].clients
    ensures if run[j].clients[c].Free?
            then steps[j - 1] == Enqueue(c) && run[j].pushed == run[j - 1].pushed + [b] && run[j].queue == run[j - 1].queue + [b]
            else run[j].clients[c] == Marked(b)
  {
    if j == i + 1 {
      assert run[j] == Apply(run[i], steps[i]);
    } else {
      AddDelivers(run, steps, c, b, i, j - 1);
      MarkedStays(run[j - 1], steps[j - 1], c, b);
    }
  }

  lemma MarkedStays(s: State, step: Step, c: Tid, b: Batch)
    requires Enabled(s, step) && c in s.clients && s.clients[c] == Marked(b)
    ensures c in Apply(s, step).clients
    ensures var s' := Apply(s, step);
            if step == Enqueue(c) then s'.clients[c].Free? && s'.pushed == s.pushed + [b] && s'.queue == s.queue + [b]
            else s'.clients[c] == Marked(b)
  {
    if step.Finish? && step.woken.Some? { assert step.woken.value in Waiters(s.clients); }
  }

  /** The form in which flag and push are one step is the two steps with nothing in between. */
  lemma AtOnceIsBoth(s: State, c: Tid, b: Batch)
    requires Enabled(s, AddAtOnce(c, b))
    ensures Enabled(s, Mark(c, b)) && Enabled(Apply(s, Mark(c, b)), Enqueue(c))
    ensures Apply(s, AddAtOnce(c, b)) == Apply(Apply(s, Mark(c, b)), Enqueue(c))
  {
    assert s.clients[c := Marked(b)][c := Free] == s.clients;
  }

  /** The worker can go on while anything is pending, and every client can go on unless it sleeps. */
  lemma CanGoOn(s: State, c: Tid, b: Batch) returns (step: Step)
    requires c in s.clients && (Pending(s) || !s.clients[c].Waiting?)
    ensures Enabled(s, step) && !step.SpuriousWakeup? && !step.Join?
    ensures s.clients[c].Free? ==> Enabled(s, Mark(c, b)) && Enabled(s, AddAtOnce(c, b))
  {
    if s.worker.Running? {
      step := Execute;
    } else if s.worker.Ran? {
      if s.queue != [] || Waiters(s.clients) == {} {
        step := Finish(None);
      } else {
        var w :| w in Waiters(s.clients);
        step := Finish(Some(w));
      }
    } else if s.queue != [] {
      step := Dequeue;
    } else if s.clients[c].Marked? {
      step := Enqueue(c);
    } else {
      step := if s.working then FlushWaits(c) else FlushReturns(c);
    }
  }
}
