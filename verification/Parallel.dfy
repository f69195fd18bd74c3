/**
 Background operations (lib/core/jbackground-operation.c) and the parallel map built on them
 (j_helper_execute_parallel in lib/core/jhelper.c), as a state machine: the calling thread launches one operation
 per entry, then waits for and drops one after the other, while the threads of the pool take operations in any
 order. A critical section is one step; so is every access outside of one.

 The function that is mapped acts on its own argument only.
 */
module Parallel {

  datatype Ptr = Null | To(address: int)

  /** How far the pool is with an operation; `Announced` still has to drop its reference. */
  datatype Worker = Queued | Running | HasResult | Announced | Gone

  datatype Op =
    | NoOp
    | Op(arg: Ptr, result: Ptr, completed: bool, refCount: int, frees: nat, worker: Worker)

  /** Where the calling thread is: entry `i` of the second or of the third loop. */
  datatype Caller =
    | Launching(i: nat)
    | Checking(i: nat)     // about to test `completed` under the mutex
    | Sleeping(i: nat)     // in g_cond_wait
    | Reading(i: nat)
    | Dropping(i: nat)
    | Done

  datatype State = State(data: seq<Ptr>, ops: seq<Op>, caller: Caller)

  /** What stays the same throughout a call. */
  datatype Call = Call(func: Ptr -> Ptr, input: seq<Ptr>, poolSize: nat)

  datatype Step = Caller | WakeUp | Take(j: nat) | Run(j: nat) | Announce(j: nat) | Drop(j: nat)

  function Given(data: seq<Ptr>): nat {
    if data == [] then 0 else Given(data[..|data| - 1]) + if data[|data| - 1].To? then 1 else 0
  }

  /** Entries are handed to the pool when there is more than one of them. */
  predicate Parallel(c: Call) { Given(c.input) > 1 }

  function Init(c: Call): State { State(c.input, seq(|c.input|, _ => NoOp), Launching(0)) }

  // ----- The steps -----

  function Unref(op: Op): Op
    requires op.Op?
  { op.(refCount := op.refCount - 1, frees := op.frees + if op.refCount == 1 then 1 else 0) }

  function Launch(c: Call, s: State): State
    requires s.caller.Launching? && s.caller.i < |s.data| == |s.ops|
  {
    var i := s.caller.i;
    var next := s.(caller := Launching(i + 1));
    if s.data[i] == Null then next
    else if Parallel(c) then next.(ops := s.ops[i := Op(s.data[i], Null, false, 2, 0, Queued)])
    else next.(data := s.data[i := c.func(s.data[i])])
  }

  function Check(s: State): State
    requires s.caller.Checking? && |s.data| == |s.ops|
  {
    var i := s.caller.i;
    if i >= |s.ops| then s.(caller := Done)
    else if s.ops[i].NoOp? then s.(caller := Checking(i + 1))
    else if s.ops[i].completed then s.(caller := Reading(i))
    else s.(caller := Sleeping(i))
  }

  predicate Enabled(c: Call, s: State, step: Step) {
    && |s.data| == |s.ops|
    && match step
       case Caller =>
         match s.caller {
           case Launching(i) => true
           case Checking(i) => true
           case Reading(i) => i < |s.ops| && s.ops[i].Op?
           case Dropping(i) => i < |s.ops| && s.ops[i].Op?
           case _ => false
         }
       case WakeUp => s.caller.Sleeping?
       case Take(j) => j < |s.ops| && s.ops[j].Op? && s.ops[j].worker == Queued && Busy(s.ops) < c.poolSize
       case Run(j) => j < |s.ops| && s.ops[j].Op? && s.ops[j].worker == Running
       case Announce(j) => j < |s.ops| && s.ops[j].Op? && s.ops[j].worker == HasResult
       case Drop(j) => j < |s.ops| && s.ops[j].Op? && s.ops[j].worker == Announced
  }

  function Apply(c: Call, s: State, step: Step): State
    requires Enabled(c, s, step)
  {
    match step
    case Caller =>
      (match s.caller
       case Launching(i) => if i < |s.data| then Launch(c, s) else s.(caller := Checking(0))
       case Checking(i) => Check(s)
       case Reading(i) => s.(data := s.data[i := s.ops[i].result], caller := Dropping(i))
       case Dropping(i) => s.(ops := s.ops[i := Unref(s.ops[i])], caller := Checking(i + 1)))
    case WakeUp => s.(caller := Checking(s.caller.i))
    case Take(j) => s.(ops := s.ops[j := s.ops[j].(worker := Running)])
    case Run(j) => s.(ops := s.ops[j := s.ops[j].(result := c.func(s.ops[j].arg), worker := HasResult)])
    case Announce(j) =>
      s.(ops := s.ops[j := s.ops[j].(completed := true, worker := Announced)],
         caller := if s.caller == Sleeping(j) then Checking(j) else s.caller)
    case Drop(j) => s.(ops := s.ops[j := Unref(s.ops[j]).(worker := Gone)])
  }

  /** The threads of the pool that are in the middle of an operation. */
  function Busy(ops: seq<Op>): nat {
    if ops == [] then 0 else Busy(ops[..|ops| - 1]) + if IsBusy(ops[|ops| - 1]) then 1 else 0
  }

  predicate IsBusy(op: Op) { op.Op? && op.worker != Queued && op.worker != Gone }

  // ----- The invariant -----

  /** The caller still has its reference to the operation of entry `j`. */
  predicate CallerHolds(caller: Caller, j: nat) {
    match caller case Done => false case Launching(_) => true case _ => j >= caller.i
  }

  predicate Launched(caller: Caller, j: nat) { caller.Launching? ==> j < caller.i }

  /** The result of entry `j` has been stored. */
  predicate Collected(caller: Caller, j: nat) { !CallerHolds(caller, j) || caller == Dropping(j) }

  predicate OpOk(c: Call, op: Op, caller: Caller, arg: Ptr, j: nat) {
    op.Op? ==>
      && op.arg == arg
      && op.refCount == (if CallerHolds(caller, j) then 1 else 0) + (if op.worker != Gone then 1 else 0)
      && op.frees == (if op.refCount == 0 then 1 else 0)
      && (op.completed <==> op.worker == Announced || op.worker == Gone)
      && (op.worker != Queued && op.worker != Running ==> op.result == c.func(arg))
      && (!CallerHolds(caller, j) || caller == Reading(j) || caller == Dropping(j) ==> op.completed)
      && (caller == Sleeping(j) ==> !op.completed)
  }

  predicate EntryOk(c: Call, datum: Ptr, op: Op, caller: Caller, arg: Ptr, j: nat) {
    && OpOk(c, op, caller, arg, j)
    && (op.Op? <==> arg.To? && Parallel(c) && Launched(caller, j))
    && (arg == Null ==> datum == Null)
    && (arg.To? && Parallel(c) ==> datum == if Collected(caller, j) then c.func(arg) else arg)
    && (arg.To? && !Parallel(c) ==> datum == if Launched(caller, j) then c.func(arg) else arg)
  }

  /** The caller only stands at an entry that has an operation when it deals with one. */
  predicate CallerOk(caller: Caller, ops: seq<Op>) {
    match caller
    case Launching(i) => i <= |ops|
    case Checking(i) => i <= |ops|
    case Done => true
    case _ => caller.i < |ops| && ops[caller.i].Op?
  }

  predicate Inv(c: Call, s: State) {
    && |s.data| == |s.ops| == |c.input|
    && CallerOk(s.caller, s.ops)
    && forall j :: 0 <= j < |c.input| ==> EntryOk(c, s.data[j], s.ops[j], s.caller, c.input[j], j)
  }

  // ----- It holds in every run -----

  lemma InitInv(c: Call)
    ensures Inv(c, Init(c))
  {}

  lemma LaunchKeeps(c: Call, s: State)
    requires Inv(c, s) && s.caller.Launching? && s.caller.i < |s.data|
    ensures Inv(c, Launch(c, s))
  {
    var i, t := s.caller.i, Launch(c, s);
    forall j | 0 <= j < |c.input| ensures EntryOk(c, t.data[j], t.ops[j], t.caller, c.input[j], j) {
      assert EntryOk(c, s.data[j], s.ops[j], s.caller, c.input[j], j);
    }
  }

  /** The caller moves on without touching anything. */
  lemma MoveKeeps(c: Call, s: State, step: Step)
    requires Inv(c, s) && Enabled(c, s, step)
    requires step == WakeUp || (step == Caller && (s.caller.Checking? || (s.caller.Launching? && s.caller.i == |s.data|)))
    ensures Inv(c, Apply(c, s, step))
  {
    var t := Apply(c, s, step);
    forall j | 0 <= j < |c.input| ensures EntryOk(c, t.data[j], t.ops[j], t.caller, c.input[j], j) {
      assert EntryOk(c, s.data[j], s.ops[j], s.caller, c.input[j], j);
    }
  }

  lemma CollectKeeps(c: Call, s: State)
    requires Inv(c, s) && (s.caller.Reading? || s.caller.Dropping?)
    ensures Inv(c, Apply(c, s, Caller))
  {
    var t := Apply(c, s, Caller);
    forall j | 0 <= j < |c.input| ensures EntryOk(c, t.data[j], t.ops[j], t.caller, c.input[j], j) {
      assert EntryOk(c, s.data[j], s.ops[j], s.caller, c.input[j], j);
    }
  }

  lemma PoolKeeps(c: Call, s: State, step: Step)
    requires Inv(c, s) && Enabled(c, s, step) && !step.Caller? && !step.WakeUp?
    ensures Inv(c, Apply(c, s, step))
  {
    var t := Apply(c, s, step);
    forall j | 0 <= j < |c.input| ensures EntryOk(c, t.data[j], t.ops[j], t.caller, c.input[j], j) {
      assert EntryOk(c, s.data[j], s.ops[j], s.caller, c.input[j], j);
    }
  }

  lemma StepKeeps(c: Call, s: State, step: Step)
    requires Inv(c, s) && Enabled(c, s, step)
    ensures Inv(c, Apply(c, s, step))
  {
    if !step.Caller? && !step.WakeUp? {
      PoolKeeps(c, s, step);
    } else if step.Caller? && s.caller.Launching? && s.caller.i < |s.data| {
      LaunchKeeps(c, s);
    } else if step.Caller? && (s.caller.Reading? || s.caller.Dropping?) {
      CollectKeeps(c, s);
    } else {
      MoveKeeps(c, s, step);
    }
  }

  ghost predicate IsRun(c: Call, states: seq<State>, steps: seq<Step>) {
    && |states| == |steps| + 1
    && states[0] == Init(c)
    && forall i {:trigger steps[i]} :: 0 <= i < |steps| ==>
         Enabled(c, states[i], steps[i]) && states[i + 1] == Apply(c, states[i], steps[i])
  }

  lemma {:induction false} RunInv(c: Call, states: seq<State>, steps: seq<Step>, n: nat)
    requires IsRun(c, states, steps) && n < |states|
    ensures Inv(c, states[n])
  {
    if n == 0 {
      InitInv(c);
    } else {
      RunInv(c, states, steps, n - 1);
      StepKeeps(c, states[n - 1], steps[n - 1]);
    }
  }

  // ----- What the caller gets -----

  /** Whatever the schedule, the call ends with the function applied to every entry that is not NULL. */
  lemma {:induction false} MapsEveryEntry(c: Call, states: seq<State>, steps: seq<Step>, n: nat, j: nat)
    requires IsRun(c, states, steps) && n < |states| && states[n].caller == Done && j < |c.input|
    ensures |states[n].data| == |c.input|
    ensures states[n].data[j] == if c.input[j] == Null then Null else c.func(c.input[j])
  {
    RunInv(c, states, steps, n);
    assert EntryOk(c, states[n].data[j], states[n].ops[j], Done, c.input[j], j);
  }

  /** The result is read only after it has been set, and read as it was set. */
  lemma {:induction false} ReadAfterSet(c: Call, states: seq<State>, steps: seq<Step>, n: nat)
    requires IsRun(c, states, steps) && n < |states| && states[n].caller.Reading?
    ensures var i := states[n].caller.i;
            && i < |states[n].ops| == |c.input| && states[n].ops[i].Op? && states[n].ops[i].completed
            && (states[n].ops[i].worker == Announced || states[n].ops[i].worker == Gone)
            && states[n].ops[i].result == c.func(c.input[i])
  {
    RunInv(c, states, steps, n);
    var i := states[n].caller.i;
    assert EntryOk(c, states[n].data[i], states[n].ops[i], states[n].caller, c.input[i], i);
  }

  // ----- Memory -----

  /** The operation whose memory a step uses. */
  function Touched(s: State, step: Step): (j: int)
  {
    match step
    case Caller => if s.caller.Launching? || s.caller.Done? || s.caller.i >= |s.ops| || s.ops[s.caller.i].NoOp? then -1
                   else s.caller.i
    case WakeUp => if s.caller.Sleeping? then s.caller.i else -1
    case _ => step.j
  }

  /** No step uses an operation that has been freed. */
  lemma {:induction false} NeverUsedAfterFree(c: Call, states: seq<State>, steps: seq<Step>, n: nat)
    requires IsRun(c, states, steps) && n < |steps|
    ensures var j := Touched(states[n], steps[n]);
            j >= 0 ==> j < |states[n].ops| && states[n].ops[j].Op? && states[n].ops[j].frees == 0
  {
    RunInv(c, states, steps, n);
    var s, j := states[n], Touched(states[n], steps[n]);
    assert Enabled(c, s, steps[n]);
    if 0 <= j < |s.ops| { assert EntryOk(c, s.data[j], s.ops[j], s.caller, c.input[j], j); }
  }

  /** An operation is freed at most once, and exactly when both the caller and the pool are done with it. */
  lemma {:induction false} FreedExactlyOnce(c: Call, states: seq<State>, steps: seq<Step>, n: nat, j: nat)
    requires IsRun(c, states, steps) && n < |states| && j < |states[n].ops| && states[n].ops[j].Op?
    ensures states[n].ops[j].frees
         == if !CallerHolds(states[n].caller, j) && states[n].ops[j].worker == Gone then 1 else 0
  {
    RunInv(c, states, steps, n);
    var s := states[n];
    assert EntryOk(c, s.data[j], s.ops[j], s.caller, c.input[j], j);
  }

  /** A caller that sleeps may wake up for no reason; then it looks at `completed` again. */
  lemma MayWake(c: Call, s: State)
    requires |s.data| == |s.ops| && s.caller.Sleeping?
    ensures Enabled(c, s, WakeUp) && Apply(c, s, WakeUp) == s.(caller := Checking(s.caller.i))
  {}

  // ----- Progress -----

  predicate Finished(s: State) { s.caller == Done && forall op <- s.ops :: op.Op? ==> op.worker == Gone }

  lemma BusyHas(ops: seq<Op>) returns (j: nat)
    requires Busy(ops) > 0
    ensures j < |ops| && IsBusy(ops[j])
  {
    j := |ops| - 1;
    if !IsBusy(ops[j]) { j := BusyHas(ops[..j]); }
  }

  function NextOf(worker: Worker, j: nat): Step {
    match worker case Queued => Take(j) case Running => Run(j) case HasResult => Announce(j) case _ => Drop(j)
  }

  /** The pool can go on with an operation, or with another one when all threads are busy. */
  lemma PoolCanMove(c: Call, s: State, j: nat) returns (step: Step)
    requires |s.data| == |s.ops| && c.poolSize > 0 && j < |s.ops| && s.ops[j].Op? && s.ops[j].worker != Gone
    ensures Enabled(c, s, step) && step != WakeUp
  {
    if s.ops[j].worker != Queued || Busy(s.ops) < c.poolSize {
      step := NextOf(s.ops[j].worker, j);
    } else {
      var k := BusyHas(s.ops);
      step := NextOf(s.ops[k].worker, k);
    }
  }

  /** Until all is done, somebody can move: no wakeup is lost and the pool does not get stuck. */
  lemma {:induction false} NeverStuck(c: Call, states: seq<State>, steps: seq<Step>, n: nat) returns (step: Step)
    requires IsRun(c, states, steps) && n < |states| && c.poolSize > 0 && !Finished(states[n])
    ensures Enabled(c, states[n], step) && step != WakeUp
  {
    RunInv(c, states, steps, n);
    var s := states[n];
    match s.caller
    case Sleeping(i) =>
      assert EntryOk(c, s.data[i], s.ops[i], s.caller, c.input[i], i);
      step := PoolCanMove(c, s, i);
    case Done =>
      var op :| op in s.ops && op.Op? && op.worker != Gone;
      var j :| 0 <= j < |s.ops| && s.ops[j] == op;
      step := PoolCanMove(c, s, j);
    case _ =>
      step := Step.Caller;
  }

  function OpRank(op: Op): nat {
    if op.NoOp? then 0
    else match op.worker case Queued => 5 case Running => 4 case HasResult => 3 case Announced => 1 case Gone => 0
  }

  function PoolRank(ops: seq<Op>): nat {
    if ops == [] then 0 else PoolRank(ops[..|ops| - 1]) + OpRank(ops[|ops| - 1])
  }

  function CallerRank(caller: Caller, n: nat): int {
    match caller
    case Launching(i) => 6 * (n - i) + 4 * n + 2
    case Checking(i) => 4 * (n - i) + 1
    case Sleeping(i) => 4 * (n - i)
    case Reading(i) => 4 * (n - i) - 1
    case Dropping(i) => 4 * (n - i) - 2
    case Done => 0
  }

  function Rank(s: State): int { CallerRank(s.caller, |s.ops|) + PoolRank(s.ops) }

  lemma {:induction false} RankUpdate(ops: seq<Op>, j: nat, op: Op)
    requires j < |ops|
    ensures PoolRank(ops[j := op]) == PoolRank(ops) - OpRank(ops[j]) + OpRank(op)
  {
    var n := |ops| - 1;
    if j < n {
      RankUpdate(ops[..n], j, op);
      assert ops[j := op][..n] == ops[..n][j := op];
    } else {
      assert ops[j := op][..n] == ops[..n];
    }
  }

  lemma PoolRankFalls(c: Call, s: State, step: Step)
    requires Inv(c, s) && Enabled(c, s, step) && !step.Caller? && !step.WakeUp?
    ensures Rank(Apply(c, s, step)) < Rank(s)
  {
    RankUpdate(s.ops, step.j, Apply(c, s, step).ops[step.j]);
  }

  /** Every step brings the end nearer, but for a wakeup without a reason. */
  lemma RankFalls(c: Call, s: State, step: Step)
    requires Inv(c, s) && Enabled(c, s, step)
    ensures step != WakeUp ==> Rank(Apply(c, s, step)) < Rank(s)
    ensures step == WakeUp ==> Rank(Apply(c, s, step)) == Rank(s) + 1
  {
    var t := Apply(c, s, step);
    if step.Take? || step.Run? || step.Announce? || step.Drop? {
      PoolRankFalls(c, s, step);
    } else if step.Caller? && s.caller.Launching? && s.caller.i < |s.data| {
      var i := s.caller.i;
      assert EntryOk(c, s.data[i], s.ops[i], s.caller, c.input[i], i);
      RankUpdate(s.ops, i, t.ops[i]);
    } else if step.Caller? && s.caller.Dropping? {
      RankUpdate(s.ops, s.caller.i, t.ops[s.caller.i]);
    }
  }

  function WakeUps(steps: seq<Step>): nat {
    if steps == [] then 0 else WakeUps(steps[..|steps| - 1]) + if steps[|steps| - 1] == WakeUp then 1 else 0
  }

  lemma {:induction false} RankBounds(c: Call, states: seq<State>, steps: seq<Step>)
    requires IsRun(c, states, steps)
    ensures Rank(states[|steps|]) + |steps| <= Rank(Init(c)) + 2 * WakeUps(steps)
  {
    if steps != [] {
      var n := |steps| - 1;
      assert IsRun(c, states[..n + 1], steps[..n]) by {
        assert forall i :: 0 <= i < n ==> steps[..n][i] == steps[i];
      }
      RankBounds(c, states[..n + 1], steps[..n]);
      RunInv(c, states, steps, n);
      RankFalls(c, states[n], steps[n]);
    }
  }

  lemma {:induction false} NoOpsRank(n: nat)
    ensures PoolRank(seq(n, _ => NoOp)) == 0
  {
    if n > 0 {
      NoOpsRank(n - 1);
      assert seq(n, _ => NoOp)[..n - 1] == seq(n - 1, _ => NoOp);
    }
  }

  /** Every run is finite: the call takes at most ten steps per entry, spurious wakeups aside. */
  lemma {:induction false} Terminates(c: Call, states: seq<State>, steps: seq<Step>)
    requires IsRun(c, states, steps)
    ensures |steps| <= 10 * |c.input| + 2 + 2 * WakeUps(steps)
  {
    RankBounds(c, states, steps);
    NoOpsRank(|c.input|);
    RunInv(c, states, steps, |steps|);
  }

  // ----- Who does the work -----

  lemma {:induction false} GivenAtLeast(data: seq<Ptr>, j: nat, k: nat)
    requires j < k < |data| && data[j].To? && data[k].To?
    ensures Given(data) >= 2
  {
    var m := |data| - 1;
    if k < m { GivenAtLeast(data[..m], j, k); } else { GivenOne(data[..m], j); }
  }

  lemma {:induction false} GivenOne(data: seq<Ptr>, j: nat)
    requires j < |data| && data[j].To?
    ensures Given(data) >= 1
  {
    if j < |data| - 1 { GivenOne(data[..|data| - 1], j); }
  }

  lemma {:induction false} GivenAtMost(data: seq<Ptr>, j: nat)
    requires j < |data| && forall k :: 0 <= k < |data| && k != j ==> data[k] == Null
    ensures Given(data) <= 1
  {
    var m := |data| - 1;
    if j < m { GivenAtMost(data[..m], j); } else { GivenNone(data[..m]); }
  }

  lemma {:induction false} GivenNone(data: seq<Ptr>)
    requires forall k :: 0 <= k < |data| ==> data[k] == Null
    ensures Given(data) == 0
  {
    if data != [] { GivenNone(data[..|data| - 1]); }
  }

  /** When the call is over, an entry has been handed to the pool if and only if it was not NULL and was not the only
      one; the only one is mapped by the caller itself. */
  lemma {:induction false} PoolIffSeveral(c: Call, states: seq<State>, steps: seq<Step>, n: nat, j: nat)
    requires IsRun(c, states, steps) && n < |states| && states[n].caller == Done && j < |c.input|
    ensures j < |states[n].ops|
    ensures states[n].ops[j].Op? <==> c.input[j].To? && exists k :: 0 <= k < |c.input| && k != j && c.input[k].To?
  {
    RunInv(c, states, steps, n);
    assert EntryOk(c, states[n].data[j], states[n].ops[j], Done, c.input[j], j);
    if c.input[j].To? {
      if k :| 0 <= k < |c.input| && k != j && c.input[k].To? {
        if j < k { GivenAtLeast(c.input, j, k); } else { GivenAtLeast(c.input, k, j); }
      } else {
        GivenAtMost(c.input, j);
      }
    }
  }

  /** How often the pool has run the operation of entry `j`. */
  function Runs(steps: seq<Step>, j: nat, n: nat): nat
    requires n <= |steps|
  { if n == 0 then 0 else Runs(steps, j, n - 1) + if steps[n - 1] == Run(j) then 1 else 0 }

  predicate HasRun(op: Op) { op.Op? && op.worker != Queued && op.worker != Running }

  lemma RunsStep(c: Call, s: State, step: Step, j: nat)
    requires Inv(c, s) && Enabled(c, s, step) && j < |s.ops|
    ensures j < |Apply(c, s, step).ops|
    ensures (if HasRun(Apply(c, s, step).ops[j]) then 1 else 0) == (if HasRun(s.ops[j]) then 1 else 0) + if step == Run(j) then 1 else 0
  {
    if step.Caller? && s.caller.Launching? && s.caller.i < |s.data| {
      var i := s.caller.i;
      assert EntryOk(c, s.data[i], s.ops[i], s.caller, c.input[i], i);
    }
  }

  /** The function is applied to an entry by the pool once: not again after it has a result, and not before. */
  lemma {:induction false} RunOnce(c: Call, states: seq<State>, steps: seq<Step>, n: nat, j: nat)
    requires IsRun(c, states, steps) && n < |states| && j < |c.input|
    ensures j < |states[n].ops| && Runs(steps, j, n) == if HasRun(states[n].ops[j]) then 1 else 0
  {
    if n > 0 {
      RunOnce(c, states, steps, n - 1, j);
      RunInv(c, states, steps, n - 1);
      RunsStep(c, states[n - 1], steps[n - 1], j);
    }
  }

  lemma {:induction false} BusyUpdate(ops: seq<Op>, j: nat, op: Op)
    requires j < |ops|
    ensures Busy(ops[j := op]) == Busy(ops) - (if IsBusy(ops[j]) then 1 else 0) + if IsBusy(op) then 1 else 0
  {
    var n := |ops| - 1;
    if j < n {
      BusyUpdate(ops[..n], j, op);
      assert ops[j := op][..n] == ops[..n][j := op];
    } else {
      assert ops[j := op][..n] == ops[..n];
    }
  }

  lemma BusyStep(c: Call, s: State, step: Step)
    requires Inv(c, s) && Enabled(c, s, step) && Busy(s.ops) <= c.poolSize
    ensures Busy(Apply(c, s, step).ops) <= c.poolSize
  {
    var t := Apply(c, s, step);
    if !step.Caller? && !step.WakeUp? {
      BusyUpdate(s.ops, step.j, t.ops[step.j]);
    } else if step.Caller? && s.caller.Launching? && s.caller.i < |s.data| {
      var i := s.caller.i;
      assert EntryOk(c, s.data[i], s.ops[i], s.caller, c.input[i], i);
      BusyUpdate(s.ops, i, t.ops[i]);
    } else if step.Caller? && s.caller.Dropping? {
      BusyUpdate(s.ops, s.caller.i, t.ops[s.caller.i]);
    }
  }

  lemma {:induction false} NoOpsBusy(n: nat)
    ensures Busy(seq(n, _ => NoOp)) == 0
  {
    if n > 0 {
      NoOpsBusy(n - 1);
      assert seq(n, _ => NoOp)[..n - 1] == seq(n - 1, _ => NoOp);
    }
  }

  /** No more operations are under way at a time than the pool has threads. */
  lemma {:induction false} PoolIsBounded(c: Call, states: seq<State>, steps: seq<Step>, n: nat)
    requires IsRun(c, states, steps) && n < |states|
    ensures Busy(states[n].ops) <= c.poolSize
  {
    if n == 0 {
      NoOpsBusy(|c.input|);
    } else {
      PoolIsBounded(c, states, steps, n - 1);
      RunInv(c, states, steps, n - 1);
      BusyStep(c, states[n - 1], steps[n - 1]);
    }
  }
}
