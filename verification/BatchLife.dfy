/**
 The life of one batch (lib/core/jbatch.c, and j_operation_cache_add in lib/core/joperation-cache.c):
 operations are added, `execute` is called any number of times, references are taken and dropped, and
 the consistency level decides when the operations are handed to j_batch_execute_internal.

 The batch shares the worker with others: `queue` are the batches that the worker has yet to run, `log` what has
 been run, in order, and every entry of them says whether it is ours. `working` is the flag that a flush looks at.
 A batch is used by one thread at a time; the worker and other clients go on at any time, also between the two
 steps in which a batch is handed over (raising the flag and pushing) and while a flush waits.
 */
module BatchLife {
  import opened Basics
  import opened BatchExecution

  type Op = Operation

  datatype Level = Immediate | Session | Eventual

  /** What j_operation_cache_add does with a batch: take it; refuse it because some operation cannot be
      cached, in which case j_operation_cache_test flushes; or refuse it because j_cache_get has no
      buffer, in which case nothing is flushed. */
  datatype Verdict = Taken | NotCacheable | NoBuffer

  datatype Event =
    | Add(op: Op)
    | Execute(verdict: Verdict)
    | Push                      // the second step of handing over
    | FlushReturns
    | RunDirect                 // j_batch_execute_internal in the thread of the client
    | Ref
    | Unref
    | Work                      // the worker runs the next batch
    | Finish                    // the worker updates the flag
    | Raise                     // another client raises the flag
    | Hand(ops: seq<Op>)        // another client pushes a batch
    | RunOther(ops: seq<Op>)    // another client runs a batch itself

  /** Where the thread that uses the batch is. */
  datatype Phase =
    | Ready
    | Marked       // has raised the flag, is about to push
    | Flushing     // waits for the flag to go down
    | Direct       // is about to run the list itself

  /** A batch that is queued or has been run. */
  datatype Entry = Entry(mine: bool, ops: seq<Op>)

  datatype Life = Life(
    level: Level,
    list: seq<Op>,
    refs: nat,
    phase: Phase,
    working: bool,      // the flag
    ran: bool,          // the worker has run a batch and not updated the flag yet
    queue: seq<Entry>,
    log: seq<Entry>,
    added: seq<Op>,     // operations added so far
    dropped: seq<Op>)   // operations freed with the batch without having run

  /** Our operations among these. */
  function Mine(es: seq<Entry>): seq<Op> {
    if es == [] then [] else (if es[0].mine then es[0].ops else []) + Mine(es[1..])
  }

  lemma {:induction false} MineConcat(a: seq<Entry>, b: seq<Entry>)
    ensures Mine(a + b) == Mine(a) + Mine(b)
    decreases |a|
  {
    if a == [] {
      assert a + b == b;
    } else {
      MineConcat(a[1..], b);
      assert (a + b)[1..] == a[1..] + b && (a + b)[0] == a[0];
    }
  }

  lemma MineAppend(es: seq<Entry>, e: Entry)
    ensures Mine(es + [e]) == Mine(es) + if e.mine then e.ops else []
  {
    MineConcat(es, [e]);
    assert [e][1..] == [];
  }

  function Born(level: Level): Life { Life(level, [], 1, Ready, false, false, [], [], [], []) }

  predicate Enabled(l: Life, e: Event) {
    match e
    case Push => l.phase.Marked?
    case FlushReturns => l.phase.Flushing? && !l.working
    case RunDirect => l.phase.Direct?
    case Work => l.queue != [] && !l.ran
    case Finish => l.ran
    case Raise => true
    case Hand(_) => true
    case RunOther(_) => true
    case _ => l.refs > 0 && l.phase.Ready?
  }

  function Logged(l: Life, e: Entry): Life { l.(log := l.log + [e]) }

  /** j_batch_execute up to the point where it waits, hands over or runs. */
  function Started(l: Life, v: Verdict): Life {
    if l.list == [] then l
    else
      match l.level
      case Session => l
      case Immediate => l.(phase := Flushing)
      case Eventual =>
        match v
        case Taken => l.(working := true, phase := Marked)
        case NotCacheable => l.(phase := Flushing)
        case NoBuffer => l.(phase := Direct)
  }

  function Unreffed(l: Life): Life
    requires l.refs > 0
  {
    if l.refs > 1 then l.(refs := l.refs - 1)
    else if l.level.Session? then Logged(l, Entry(true, l.list)).(refs := 0, list := [])
    else l.(refs := 0, dropped := l.list, list := [])
  }

  function Apply(l: Life, e: Event): Life
    requires Enabled(l, e)
  {
    match e
    case Add(op) => l.(list := l.list + [op], added := l.added + [op])
    case Execute(v) => Started(l, v)
    case Push => l.(queue := l.queue + [Entry(true, l.list)], list := [], phase := Ready)
    case FlushReturns => l.(phase := Direct)
    case RunDirect => Logged(l, Entry(true, l.list)).(list := [], phase := Ready)
    case Ref => l.(refs := l.refs + 1)
    case Unref => Unreffed(l)
    case Work => Logged(l, l.queue[0]).(queue := l.queue[1..], ran := true)
    case Finish => l.(working := l.queue != [], ran := false)
    case Raise => l.(working := true)
    case Hand(ops) => l.(queue := l.queue + [Entry(false, ops)])
    case RunOther(ops) => Logged(l, Entry(false, ops))
  }

  predicate Possible(level: Level, events: seq<Event>)
    decreases |events|, 0
  {
    events == [] ||
    (Possible(level, events[..|events| - 1]) && Enabled(After(level, events[..|events| - 1]), events[|events| - 1]))
  }

  /** The batch after a sequence of events. */
  function After(level: Level, events: seq<Event>): Life
    requires Possible(level, events)
    decreases |events|, 1
  {
    if events == [] then Born(level) else Apply(After(level, events[..|events| - 1]), events[|events| - 1])
  }

  lemma AfterNext(level: Level, events: seq<Event>, e: Event)
    requires Possible(level, events) && Enabled(After(level, events), e)
    ensures Possible(level, events + [e]) && After(level, events + [e]) == Apply(After(level, events), e)
  {
    assert (events + [e])[..|events|] == events;
  }

  /** Events that are not the doing of the thread that uses the batch. */
  predicate Foreign(e: Event) { e.Work? || e.Finish? || e.Raise? || e.Hand? || e.RunOther? }

  // ----- No operation runs twice, and none is lost -----

  predicate Conserved(l: Life) { Balanced(Mine(l.log), Mine(l.queue), l.list, l.dropped, l.added) }

  predicate Balanced(run: seq<Op>, waiting: seq<Op>, list: seq<Op>, dropped: seq<Op>, added: seq<Op>) {
    multiset(run) + multiset(waiting) + multiset(list) + multiset(dropped) == multiset(added)
  }

  /** What every sequence of events keeps: operations are dropped with the last reference only, a thread is in the
      middle of something only with operations, and only an eventual batch is ever handed over. */
  predicate WellKept(level: Level, l: Life) {
    && l.level == level
    && (l.refs > 0 ==> l.dropped == []) && (l.refs == 0 ==> l.list == [])
    && (!l.phase.Ready? ==> l.list != [] && l.refs > 0 && !level.Session?)
    && (l.phase.Marked? ==> level.Eventual?)
    && (forall e <- l.queue :: e.mine ==> level.Eventual? && e.ops != [])
  }

  lemma StepWellKept(level: Level, l: Life, e: Event)
    requires WellKept(level, l) && Enabled(l, e)
    ensures WellKept(level, Apply(l, e))
  {}

  lemma {:induction false} AlwaysWellKept(level: Level, events: seq<Event>)
    requires Possible(level, events)
    ensures WellKept(level, After(level, events))
    decreases |events|
  {
    if events != [] {
      var before := events[..|events| - 1];
      AlwaysWellKept(level, before);
      StepWellKept(level, After(level, before), events[|events| - 1]);
    }
  }

  /** What the worker runs leaves the queue. */
  lemma WorkMine(l: Life)
    requires Enabled(l, Work)
    ensures Mine(Apply(l, Work).log) + Mine(Apply(l, Work).queue) == Mine(l.log) + Mine(l.queue)
    ensures Mine(l.log) <= Mine(Apply(l, Work).log)
  {
    MineAppend(l.log, l.queue[0]);
  }

  /** What the list loses goes to the end of the queue, or of the log. */
  lemma PushMine(l: Life)
    requires Enabled(l, Push)
    ensures Mine(Apply(l, Push).queue) == Mine(l.queue) + l.list
  {
    MineAppend(l.queue, Entry(true, l.list));
  }

  lemma RunMine(l: Life)
    ensures Mine(Logged(l, Entry(true, l.list)).log) == Mine(l.log) + l.list
  {
    MineAppend(l.log, Entry(true, l.list));
  }

  /** Events that move none of our operations. */
  predicate Still(e: Event) { !e.Add? && !e.Work? && !e.Push? && !e.RunDirect? && !e.Unref? }

  lemma StillMine(l: Life, e: Event)
    requires Enabled(l, e) && Still(e)
    ensures var l' := Apply(l, e);
            && Mine(l'.log) == Mine(l.log) && Mine(l'.queue) == Mine(l.queue) && l.log <= l'.log
            && l'.list == l.list && l'.dropped == l.dropped && l'.added == l.added && l'.refs >= l.refs
  {
    if e.Hand? { MineAppend(l.queue, Entry(false, e.ops)); }
    if e.RunOther? { MineAppend(l.log, Entry(false, e.ops)); }
  }

  lemma WorkBalances(run: seq<Op>, waiting: seq<Op>, run': seq<Op>, waiting': seq<Op>, list: seq<Op>, dropped: seq<Op>, added: seq<Op>)
    requires Balanced(run, waiting, list, dropped, added) && run' + waiting' == run + waiting
    ensures Balanced(run', waiting', list, dropped, added)
  {
    assert multiset(run' + waiting') == multiset(run + waiting);
  }

  lemma PushConserves(l: Life)
    requires Conserved(l) && l.dropped == [] && Enabled(l, Push)
    ensures Conserved(Apply(l, Push))
  {
    PushMine(l);
  }

  lemma RunConserves(l: Life, l': Life)
    requires Conserved(l) && l.dropped == [] && l'.log == l.log + [Entry(true, l.list)]
    requires l'.queue == l.queue && l'.list == [] && l'.dropped == [] && l'.added == l.added
    ensures Conserved(l')
  {
    RunMine(l);
  }

  lemma DropConserves(l: Life, l': Life)
    requires Conserved(l) && l.dropped == [] && l'.log == l.log && l'.queue == l.queue && l'.added == l.added
    requires (l'.list == [] && l'.dropped == l.list) || (l'.list == l.list && l'.dropped == [])
    ensures Conserved(l')
  {}

  lemma AddConserves(l: Life, op: Op)
    requires Conserved(l)
    ensures Conserved(l.(list := l.list + [op], added := l.added + [op]))
  {}

  lemma StepConserves(level: Level, l: Life, e: Event)
    requires Conserved(l) && WellKept(level, l) && Enabled(l, e)
    ensures Conserved(Apply(l, e))
  {
    var l' := Apply(l, e);
    if Still(e) {
      StillMine(l, e);
    } else if e.Work? {
      WorkMine(l);
      WorkBalances(Mine(l.log), Mine(l.queue), Mine(l'.log), Mine(l'.queue), l.list, l.dropped, l.added);
    } else {
      ClientConserves(level, l, e);
    }
  }

  lemma ClientConserves(level: Level, l: Life, e: Event)
    requires Conserved(l) && WellKept(level, l) && Enabled(l, e) && (e.Add? || e.Push? || e.RunDirect? || e.Unref?)
    ensures Conserved(Apply(l, e))
  {
    match e
    case Add(op) => AddConserves(l, op);
    case Push => PushConserves(l);
    case RunDirect => RunConserves(l, Apply(l, e));
    case Unref => if l.refs == 1 && l.level.Session? { RunConserves(l, Apply(l, e)); } else { DropConserves(l, Apply(l, e)); }
  }

  /** Over every sequence of events, every added operation is in exactly one place: it has run, it waits in
      a batch handed to the worker, it is still in the list, or it was freed with the batch. */
  lemma {:induction false} RunsAtMostOnce(level: Level, events: seq<Event>)
    requires Possible(level, events)
    ensures Conserved(After(level, events))
    decreases |events|
  {
    if events != [] {
      var before := events[..|events| - 1];
      RunsAtMostOnce(level, before);
      AlwaysWellKept(level, before);
      StepConserves(level, After(level, before), events[|events| - 1]);
    }
  }

  // ----- References -----

  function Count(events: seq<Event>, e: Event): nat {
    if events == [] then 0 else Count(events[..|events| - 1], e) + if events[|events| - 1] == e then 1 else 0
  }

  /** The count is one, plus the references taken, minus those dropped. */
  lemma {:induction false} RefsCounted(level: Level, events: seq<Event>)
    requires Possible(level, events)
    ensures After(level, events).refs == 1 + Count(events, Ref) - Count(events, Unref)
    decreases |events|
  {
    if events != [] { RefsCounted(level, events[..|events| - 1]); }
  }

  // ----- When operations run -----

  lemma NoneMine(es: seq<Entry>)
    requires forall e <- es :: !e.mine
    ensures Mine(es) == []
  {
    if es != [] { assert es[0] in es && forall e <- es[1..] :: e in es; }
  }

  lemma {:induction false} OnlyEventualMoves(level: Level, events: seq<Event>)
    requires Possible(level, events) && !level.Eventual?
    ensures Mine(After(level, events).queue) == []
  {
    AlwaysWellKept(level, events);
    NoneMine(After(level, events).queue);
  }

  lemma {:induction false} SessionRunsAtTheEnd(events: seq<Event>)
    requires Possible(Session, events)
    ensures SessionSoFar(After(Session, events))
    decreases |events|
  {
    if events != [] {
      var before := events[..|events| - 1];
      SessionRunsAtTheEnd(before);
      AlwaysWellKept(Session, before);
      OnlyEventualMoves(Session, before);
      SessionStep(After(Session, before), events[|events| - 1]);
    }
  }

  /** The operations of a session batch are all in the list until the last reference is dropped, and have all been run,
      in order, afterwards. */
  predicate SessionSoFar(l: Life) {
    && (l.refs > 0 ==> Mine(l.log) == [] && l.list == l.added)
    && (l.refs == 0 ==> Mine(l.log) == l.added && l.list == [])
  }

  lemma SessionStep(l: Life, e: Event)
    requires SessionSoFar(l) && WellKept(Session, l) && Enabled(l, e) && Mine(l.queue) == []
    ensures SessionSoFar(Apply(l, e))
  {
    if Still(e) {
      StillMine(l, e);
      assert (Apply(l, e).refs > 0) == (l.refs > 0);
    } else if e.Work? {
      WorkMine(l);
    } else {
      RunMine(l);
    }
  }

  /** The last execute came after the last add. */
  predicate Settled(events: seq<Event>) {
    events != [] && !events[|events| - 1].Add? && (events[|events| - 1].Execute? || Settled(events[..|events| - 1]))
  }

  /** When execute of an immediate or eventual batch is over, nothing is left in the list. */
  lemma {:induction false} ExecuteEmptiesList(level: Level, events: seq<Event>)
    requires Possible(level, events) && !level.Session? && Settled(events) && After(level, events).phase.Ready?
    ensures After(level, events).list == []
    decreases |events|
  {
    var before := events[..|events| - 1];
    AlwaysWellKept(level, before);
    if !events[|events| - 1].Execute? && After(level, before).phase.Ready? { ExecuteEmptiesList(level, before); }
  }

  // ----- The order in which operations run -----

  predicate InOrder(l: Life) { Mine(l.log) + Mine(l.queue) + l.list + l.dropped == l.added }

  /** The thread runs its list itself while earlier operations of the batch still wait for the worker. */
  predicate Overtakes(l: Life, e: Event) { e.RunDirect? && Mine(l.queue) != [] }

  lemma StepKeepsOrder(level: Level, l: Life, e: Event)
    requires InOrder(l) && Enabled(l, e) && WellKept(level, l) && !Overtakes(l, e)
    ensures InOrder(Apply(l, e))
  {
    if Still(e) {
      StillMine(l, e);
    } else if e.Work? {
      WorkMine(l);
    } else {
      if !level.Eventual? { NoneMine(l.queue); }
      if e.Push? { PushMine(l); }
      RunMine(l);
      MoveInOrder(Mine(l.log), Mine(l.queue), l.list, l.added, if e.Add? then e.op else Operation(None, 0, None));
    }
  }

  lemma MoveInOrder(run: seq<Op>, waiting: seq<Op>, list: seq<Op>, added: seq<Op>, op: Op)
    requires run + waiting + list + [] == added
    ensures run + (waiting + list) + [] + [] == added && run + waiting + [] + list == added
    ensures waiting == [] ==> (run + list) + waiting + [] + [] == added
    ensures run + waiting + (list + [op]) + [] == added + [op]
  {}

  lemma {:induction false} ImmediateInOrder(events: seq<Event>)
    requires Possible(Immediate, events)
    ensures InOrder(After(Immediate, events))
    decreases |events|
  {
    if events != [] {
      var before := events[..|events| - 1];
      ImmediateInOrder(before);
      AlwaysWellKept(Immediate, before);
      OnlyEventualMoves(Immediate, before);
      StepKeepsOrder(Immediate, After(Immediate, before), events[|events| - 1]);
    }
  }

  /** The operations of an immediate batch have all run, in order, whenever its execute is over. */
  lemma {:induction false} ImmediateRunsAtExecute(events: seq<Event>)
    requires Possible(Immediate, events)
    ensures var l := After(Immediate, events);
            && Mine(l.log) + l.list + l.dropped == l.added
            && (Settled(events) && l.phase.Ready? && l.refs > 0 ==> Mine(l.log) == l.added)
  {
    ImmediateInOrder(events);
    OnlyEventualMoves(Immediate, events);
    AlwaysWellKept(Immediate, events);
    NothingWaits(After(Immediate, events));
    if Settled(events) && After(Immediate, events).phase.Ready? { ExecuteEmptiesList(Immediate, events); }
  }

  lemma NothingWaits(l: Life)
    requires InOrder(l) && Mine(l.queue) == []
    ensures Mine(l.log) + l.list + l.dropped == l.added && (l.list == [] && l.dropped == [] ==> Mine(l.log) == l.added)
  {}

  /** Some operation has run in the place of another. */
  predicate OutOfOrder(l: Life) {
    exists k :: 0 <= k < |Mine(l.log)| && (k >= |l.added| || Mine(l.log)[k] != l.added[k])
  }

  lemma OvertakingBreaksOrder(level: Level, l: Life, e: Event)
    requires InOrder(l) && WellKept(level, l) && Distinct(l.added) && Enabled(l, e) && Overtakes(l, e)
    ensures OutOfOrder(Apply(l, e))
  {
    RunMine(l);
    var k := |Mine(l.log)|;
    assert l.added[k] == Mine(l.queue)[0];
    assert l.added[k + |Mine(l.queue)|] == l.list[0];
    assert Mine(Apply(l, e).log)[k] == l.list[0];
  }

  lemma LogGrows(l: Life, e: Event)
    requires Enabled(l, e)
    ensures Mine(l.log) <= Mine(Apply(l, e).log) && l.added <= Apply(l, e).added && l.log <= Apply(l, e).log
  {
    if Still(e) { StillMine(l, e); } else if e.Work? { WorkMine(l); } else { RunMine(l); }
  }

  lemma OutOfOrderStays(l: Life, e: Event)
    requires OutOfOrder(l) && Enabled(l, e) && |Mine(l.log)| <= |l.added|
    ensures OutOfOrder(Apply(l, e))
  {
    LogGrows(l, e);
    var k :| 0 <= k < |Mine(l.log)| && (k >= |l.added| || Mine(l.log)[k] != l.added[k]);
    assert Mine(Apply(l, e).log)[k] == Mine(l.log)[k] && Apply(l, e).added[k] == l.added[k];
  }

  lemma ConservedLengths(l: Life)
    requires Conserved(l)
    ensures |Mine(l.log)| <= |l.added|
  {
    assert |multiset(Mine(l.log)) + multiset(Mine(l.queue)) + multiset(l.list) + multiset(l.dropped)| == |multiset(l.added)|;
  }

  /** Does any event of the sequence overtake? */
  predicate AnyOvertakes(level: Level, events: seq<Event>)
    requires Possible(level, events)
    decreases |events|
  {
    events != [] &&
    (AnyOvertakes(level, events[..|events| - 1]) || Overtakes(After(level, events[..|events| - 1]), events[|events| - 1]))
  }

  lemma {:induction false} OrderDecided(level: Level, events: seq<Event>)
    requires Possible(level, events) && Distinct(After(level, events).added)
    ensures var l := After(level, events); if AnyOvertakes(level, events) then OutOfOrder(l) else InOrder(l)
    decreases |events|
  {
    if events != [] {
      var before, e := events[..|events| - 1], events[|events| - 1];
      var l := After(level, before);
      LogGrows(l, e);
      assert forall k :: 0 <= k < |l.added| ==> l.added[k] == After(level, events).added[k];
      OrderDecided(level, before);
      AlwaysWellKept(level, before);
      RunsAtMostOnce(level, before);
      ConservedLengths(l);
      if AnyOvertakes(level, before) {
        OutOfOrderStays(l, e);
      } else if Overtakes(l, e) {
        OvertakingBreaksOrder(level, l, e);
      } else {
        StepKeepsOrder(level, l, e);
      }
    }
  }

  /** For operations that can be told apart: they have run in the order in which they were added if and only if
      the thread never ran its list itself, for want of a buffer or after a flush, while earlier operations of the
      batch were still waiting for the worker. */
  lemma OrderIffNoOvertaking(level: Level, events: seq<Event>)
    requires Possible(level, events) && Distinct(After(level, events).added)
    ensures Mine(After(level, events).log) <= After(level, events).added <==> !AnyOvertakes(level, events)
  {
    OrderDecided(level, events);
    PrefixOrOutOfOrder(After(level, events));
  }

  lemma PrefixOrOutOfOrder(l: Life)
    ensures OutOfOrder(l) ==> !(Mine(l.log) <= l.added)
    ensures InOrder(l) ==> Mine(l.log) <= l.added
  {
    if InOrder(l) {
      assert l.added == Mine(l.log) + (Mine(l.queue) + l.list + l.dropped);
    }
  }

  // ----- Flushing as a sync point between batches -----

  /** A flush would find the flag down although batches wait. */
  predicate Stale(l: Life) { !l.working && l.queue != [] }

  /** The one way into such a state is a push with the flag down again. */
  lemma StaleOnlyByPush(l: Life, e: Event)
    requires Enabled(l, e)
    ensures Stale(Apply(l, e)) ==> Stale(l) || ((e.Push? || e.Hand?) && !l.working)
    ensures (e.Push? || e.Hand?) && !l.working ==> Stale(Apply(l, e))
  {}

  /** An execute with this verdict waits for the flag before it runs anything. */
  predicate Flushes(level: Level, v: Verdict) { level.Immediate? || (level.Eventual? && v.NotCacheable?) }

  /** All that was queued in `l0` has been run since. */
  predicate AllDone(l0: Life, l: Life) {
    l0.log <= l.log && multiset(l0.queue) <= multiset(l.log[|l0.log|..])
  }

  /** What holds between the start of an execute in `l0` and the run of its list: nothing queued then is lost, and
      it has all been run unless the flag is still up. */
  predicate Holding(l0: Life, l: Life) {
    && l0.log <= l.log
    && multiset(l0.queue) <= multiset(l.log[|l0.log|..]) + multiset(l.queue)
    && (l.phase.Flushing? || l.phase.Direct?)
    && (!Stale(l0) ==> AllDone(l0, l) || (l.phase.Flushing? && l.working))
  }

  /** A batch moves from the queue to the log. */
  lemma WorkMoves(l0: Life, l: Life)
    requires Enabled(l, Work) && l0.log <= l.log
    requires multiset(l0.queue) <= multiset(l.log[|l0.log|..]) + multiset(l.queue)
    ensures var l' := Apply(l, Work);
            l0.log <= l'.log && multiset(l0.queue) <= multiset(l'.log[|l0.log|..]) + multiset(l'.queue)
  {
    var l' := Apply(l, Work);
    assert l'.log[|l0.log|..] == l.log[|l0.log|..] + [l.queue[0]];
    assert l.queue == [l.queue[0]] + l.queue[1..];
  }

  /** What is done stays done. */
  lemma DoneStays(l0: Life, l: Life, e: Event)
    requires Enabled(l, e) && AllDone(l0, l)
    ensures AllDone(l0, Apply(l, e))
  {
    LogGrows(l, e);
    var l' := Apply(l, e);
    assert l'.log[|l0.log|..] == l.log[|l0.log|..] + l'.log[|l.log|..];
  }

  lemma HoldingStep(l0: Life, l: Life, e: Event)
    requires Holding(l0, l) && Enabled(l, e) && (Foreign(e) || e.FlushReturns?)
    ensures Holding(l0, Apply(l, e))
  {
    LogGrows(l, e);
    var l' := Apply(l, e);
    if e.Work? { WorkMoves(l0, l); }
    if e.RunOther? { assert l'.log[|l0.log|..] == l.log[|l0.log|..] + [Entry(false, e.ops)]; }
    if AllDone(l0, l) { DoneStays(l0, l, e); }
    if e.Finish? { assert l.queue == [] ==> multiset(l0.queue) <= multiset(l.log[|l0.log|..]); }
  }

  /** The place of the last execute. */
  function LastExecute(events: seq<Event>): (x: int)
    ensures -1 <= x < |events|
    ensures x >= 0 ==> events[x].Execute?
  {
    if events == [] then -1
    else if events[|events| - 1].Execute? then |events| - 1
    else LastExecute(events[..|events| - 1])
  }

  /** Between an execute that flushes and the run of its list. */
  lemma {:induction false} AlwaysHolding(level: Level, events: seq<Event>)
    requires Possible(level, events)
    requires After(level, events).phase.Flushing? || After(level, events).phase.Direct?
    ensures var x := LastExecute(events);
            && x >= 0 && Possible(level, events[..x])
            && (Flushes(level, events[x].verdict) ==> Holding(After(level, events[..x]), After(level, events)))
    decreases |events|
  {
    var before, e := events[..|events| - 1], events[|events| - 1];
    AlwaysWellKept(level, before);
    if e.Execute? {
      assert events[..|events| - 1] == before;
    } else {
      AlwaysHolding(level, before);
      var x := LastExecute(before);
      assert before[..x] == events[..x] && before[x] == events[x];
      if Flushes(level, events[x].verdict) { HoldingStep(After(level, events[..x]), After(level, before), e); }
    }
  }

  /** Our own thread has run some of our operations. */
  predicate RunsOwn(l: Life, e: Event)
    requires Enabled(l, e)
  { !Foreign(e) && Mine(Apply(l, e).log) != Mine(l.log) }

  /** A sync point: whenever an immediate batch, or an eventual one with operations that cannot be cached, runs
      its operations, everything that anybody had handed to the worker when its execute was called has been run
      before, and the flag has been down since; unless the execute found the flag down with batches waiting. */
  lemma {:induction false} RunsAfterEarlier(level: Level, events: seq<Event>)
    requires Possible(level, events) && events != [] && !level.Session?
    requires RunsOwn(After(level, events[..|events| - 1]), events[|events| - 1])
    ensures var x := LastExecute(events);
            && x >= 0 && Possible(level, events[..x])
            && var l0, before, after := After(level, events[..x]), After(level, events[..|events| - 1]), After(level, events);
               && after.log == before.log + [Entry(true, l0.list)] && l0.list != []
               && (Flushes(level, events[x].verdict) && !Stale(l0) ==> AllDone(l0, before))
  {
    var init, e := events[..|events| - 1], events[|events| - 1];
    AlwaysWellKept(level, init);
    if Still(e) { StillMine(After(level, init), e); }
    AlwaysHolding(level, init);
    assert events[..|events| - 1] == init;
    var x := LastExecute(init);
    assert init[..x] == events[..x];
    SameList(level, init);
  }

  lemma StartedKeeps(l: Life, v: Verdict)
    ensures var m := Started(l, v); m.list == l.list && m.log == l.log && m.queue == l.queue
  {}

  /** A thread that is in the middle of something after an event other than an execute was so before, and its list is as
      it was. */
  lemma BusyStays(l: Life, e: Event)
    requires Enabled(l, e) && !e.Execute? && !Apply(l, e).phase.Ready?
    ensures !l.phase.Ready? && Apply(l, e).list == l.list && (Foreign(e) || e.FlushReturns?)
    ensures Apply(l, e).phase.Flushing? || Apply(l, e).phase.Direct? ==> l.phase.Flushing? || l.phase.Direct?
  {}

  /** From the call of execute to the run, the list stays as it is. */
  lemma {:induction false} SameList(level: Level, events: seq<Event>)
    requires Possible(level, events) && !After(level, events).phase.Ready?
    ensures var x := LastExecute(events);
            x >= 0 && Possible(level, events[..x]) && After(level, events).list == After(level, events[..x]).list
    decreases |events|
  {
    var before, e := events[..|events| - 1], events[|events| - 1];
    if e.Execute? {
      assert events[..|events| - 1] == before;
      StartedKeeps(After(level, before), e.verdict);
    } else {
      BusyStays(After(level, before), e);
      SameList(level, before);
      assert before[..LastExecute(before)] == events[..LastExecute(before)];
    }
  }

  /** While the flag is up, the run is not reached: a flush has seen the flag down. */
  lemma {:induction false} FlagSeenDown(level: Level, events: seq<Event>) returns (f: nat)
    requires Possible(level, events) && After(level, events).phase.Direct?
    requires LastExecute(events) >= 0 && Flushes(level, events[LastExecute(events)].verdict)
    ensures LastExecute(events) < f < |events| && Possible(level, events[..f]) && !After(level, events[..f]).working
    decreases |events|
  {
    var before, e := events[..|events| - 1], events[|events| - 1];
    AlwaysWellKept(level, before);
    if e.FlushReturns? {
      f := |events| - 1;
      assert events[..f] == before;
    } else {
      assert !e.Execute?;
      f := FlagSeenDown(level, before);
      assert before[..f] == events[..f];
    }
  }

  /** The exception is real: an execute that finds the flag down with batches waiting can run before all of them. */
  lemma {:induction false} StaleIsOvertaken(level: Level, events: seq<Event>, v: Verdict) returns (events': seq<Event>)
    requires Possible(level, events) && Flushes(level, v)
    requires var l := After(level, events); Stale(l) && l.list != [] && l.refs > 0 && l.phase.Ready?
    ensures events' == events + [Execute(v), FlushReturns, RunDirect] && Possible(level, events')
    ensures var l, l' := After(level, events), After(level, events');
            l'.log == l.log + [Entry(true, l.list)] && l'.queue == l.queue
  {
    AlwaysWellKept(level, events);
    AfterNext(level, events, Execute(v));
    AfterNext(level, events + [Execute(v)], FlushReturns);
    AfterNext(level, events + [Execute(v)] + [FlushReturns], RunDirect);
    events' := events + [Execute(v), FlushReturns, RunDirect];
    assert events' == events + [Execute(v)] + [FlushReturns] + [RunDirect];
  }

  /** So a batch whose operations cannot be cached overtakes its own earlier operations only after an execute that
      found the flag down with batches waiting. */
  lemma {:induction false} OvertakesOnlyStale(level: Level, events: seq<Event>)
    requires Possible(level, events) && events != []
    requires Overtakes(After(level, events[..|events| - 1]), events[|events| - 1])
    ensures var x := LastExecute(events);
            x >= 0 && Possible(level, events[..x]) && (Flushes(level, events[x].verdict) ==> Stale(After(level, events[..x])))
  {
    var init := events[..|events| - 1];
    AlwaysWellKept(level, init);
    AlwaysHolding(level, init);
    var x := LastExecute(init);
    assert init[..x] == events[..x];
    if Flushes(level, events[x].verdict) && !Stale(After(level, events[..x])) {
      NoNewMine(level, init);
      NothingMineLeft(After(level, events[..x]), After(level, init));
    }
  }

  /** From the call of execute to the run, nothing of ours is added to the queue. */
  lemma {:induction false} NoNewMine(level: Level, events: seq<Event>)
    requires Possible(level, events)
    requires After(level, events).phase.Flushing? || After(level, events).phase.Direct?
    ensures var x := LastExecute(events);
            && x >= 0 && Possible(level, events[..x])
            && var l0, l := After(level, events[..x]), After(level, events);
               Mine(l.log) + Mine(l.queue) == Mine(l0.log) + Mine(l0.queue)
    decreases |events|
  {
    var before, e := events[..|events| - 1], events[|events| - 1];
    if e.Execute? {
      assert events[..|events| - 1] == before;
      StartedKeeps(After(level, before), e.verdict);
    } else {
      BusyStays(After(level, before), e);
      if e.Work? { WorkMine(After(level, before)); } else { StillMine(After(level, before), e); }
      NoNewMine(level, before);
      assert before[..LastExecute(before)] == events[..LastExecute(before)];
    }
  }

  lemma {:induction false} MineMonotone(a: seq<Entry>, b: seq<Entry>)
    requires multiset(a) <= multiset(b)
    ensures |Mine(a)| <= |Mine(b)|
    decreases |a|
  {
    if a != [] {
      assert a[0] in multiset(a) && a[0] in multiset(b);
      var i :| 0 <= i < |b| && b[i] == a[0];
      WithoutOne(a, b, i);
      MineWithout(b, i);
      MineMonotone(a[1..], b[..i] + b[i + 1..]);
    }
  }

  lemma WithoutOne(a: seq<Entry>, b: seq<Entry>, i: nat)
    requires a != [] && i < |b| && b[i] == a[0] && multiset(a) <= multiset(b)
    ensures multiset(a[1..]) <= multiset(b[..i] + b[i + 1..])
  {
    var b' := b[..i] + b[i + 1..];
    assert a == [a[0]] + a[1..] && b == b[..i] + [b[i]] + b[i + 1..];
    forall e: Entry ensures multiset(a[1..])[e] <= multiset(b')[e] {
      assert multiset(a)[e] == multiset([a[0]])[e] + multiset(a[1..])[e];
      assert multiset(b)[e] == multiset([a[0]])[e] + multiset(b')[e];
    }
  }

  lemma MineWithout(b: seq<Entry>, i: nat)
    requires i < |b|
    ensures |Mine(b)| == |Mine(b[..i] + b[i + 1..])| + if b[i].mine then |b[i].ops| else 0
  {
    assert b == b[..i] + [b[i]] + b[i + 1..];
    MineConcat(b[..i], b[i + 1..]);
    MineConcat(b[..i] + [b[i]], b[i + 1..]);
    MineAppend(b[..i], b[i]);
  }

  lemma NothingMineLeft(l0: Life, l: Life)
    requires AllDone(l0, l) && Mine(l.log) + Mine(l.queue) == Mine(l0.log) + Mine(l0.queue)
    ensures Mine(l.queue) == []
  {
    var since := l.log[|l0.log|..];
    assert l.log == l0.log + since;
    MineConcat(l0.log, since);
    MineMonotone(l0.queue, since);
    assert |Mine(l0.log)| + |Mine(since)| + |Mine(l.queue)| == |Mine(l0.log)| + |Mine(l0.queue)|;
  }

  // ----- What happens meanwhile -----

  /** Foreign events, as far as they can happen. */
  function Meanwhile(l: Life, es: seq<Event>): (m: Life)
    ensures SameClient(l, m)
    decreases |es|
  {
    if es == [] then l else Meanwhile(Disturbed(l, es[0]), es[1..])
  }

  function Disturbed(l: Life, e: Event): (m: Life)
    ensures SameClient(l, m)
  { if Foreign(e) && Enabled(l, e) then Apply(l, e) else l }

  /** Foreign events leave the batch itself alone. */
  predicate SameClient(l: Life, m: Life) {
    && m.level == l.level && m.list == l.list && m.refs == l.refs && m.phase == l.phase
    && m.added == l.added && m.dropped == l.dropped
  }

  /** j_operation_cache_flush: while the flag is up, others go on. */
  function FlushLoop(l: Life, es: seq<Event>): (m: Life)
    ensures SameClient(l, m)
    decreases |es|
  {
    if !l.working || es == [] then l else FlushLoop(Disturbed(l, es[0]), es[1..])
  }

  /** A flush that waits, and sees the flag down in the end, has waited for everything that was queued. */
  lemma {:induction false} FlushWaitsForAll(l0: Life, l: Life, es: seq<Event>)
    requires Holding(l0, l) && l.phase.Flushing?
    ensures Holding(l0, FlushLoop(l, es)) && FlushLoop(l, es).phase.Flushing? && FlushLoop(l, es).list == l.list
    ensures !FlushLoop(l, es).working && !Stale(l0) ==> AllDone(l0, FlushLoop(l, es))
    decreases |es|
  {
    if l.working && es != [] {
      if Foreign(es[0]) && Enabled(l, es[0]) { HoldingStep(l0, l, es[0]); }
      FlushWaitsForAll(l0, Disturbed(l, es[0]), es[1..]);
    }
  }

  /** What the methods below do, event by event, is a possible sequence of events. */
  lemma {:induction false} MeanwhileIsEvents(level: Level, events: seq<Event>, es: seq<Event>) returns (events': seq<Event>)
    requires Possible(level, events)
    ensures events <= events' && Possible(level, events') && After(level, events') == Meanwhile(After(level, events), es)
    decreases |es|
  {
    events' := events;
    if es != [] {
      var next := DisturbedIsEvents(level, events, es[0]);
      events' := MeanwhileIsEvents(level, next, es[1..]);
    }
  }

  lemma DisturbedIsEvents(level: Level, events: seq<Event>, e: Event) returns (events': seq<Event>)
    requires Possible(level, events)
    ensures events <= events' && Possible(level, events') && After(level, events') == Disturbed(After(level, events), e)
  {
    events' := events;
    if Foreign(e) && Enabled(After(level, events), e) {
      events' := events + [e];
      AfterNext(level, events, e);
    }
  }

  // ----- A whole call of execute -----

  /** j_batch_execute, with what happens meanwhile. */
  function AfterExecute(l: Life, v: Verdict, es: seq<Event>): Life {
    var m := Started(l, v);
    match m.phase
    case Ready => m
    case Marked => Apply(Meanwhile(m, es), Push)
    case Direct => Apply(m, RunDirect)
    case Flushing => FlushedAndRun(m, es)
  }

  function FlushedAndRun(m: Life, es: seq<Event>): Life
    requires m.phase.Flushing?
  {
    var w := FlushLoop(m, es);
    if w.working then w else Apply(Apply(w, FlushReturns), RunDirect)
  }

  /** The list of `l0` is the last thing that has been run in `l`, and all that was queued in `l0` has been run before,
      unless the flag was down in `l0` with batches waiting. */
  predicate RanAfterAll(l0: Life, l: Life) {
    && l.log != [] && l.log[|l.log| - 1] == Entry(true, l0.list) && l.list == [] && l0.log <= l.log[..|l.log| - 1]
    && (!Stale(l0) ==> multiset(l0.queue) <= multiset(l.log[..|l.log| - 1][|l0.log|..]))
  }

  lemma FlushedAndRunIsLast(l0: Life, es: seq<Event>)
    requires l0.list != []
    ensures var l := FlushedAndRun(l0.(phase := Flushing), es);
            if l.phase.Ready? then !l.working && RanAfterAll(l0, l) else l.working && l.list == l0.list
    ensures !l0.working ==> FlushedAndRun(l0.(phase := Flushing), es).log == l0.log + [Entry(true, l0.list)]
  {
    var m := l0.(phase := Flushing);
    assert l0.log[|l0.log|..] == [];
    FlushWaitsForAll(l0, m, es);
    var w := FlushLoop(m, es);
    assert (w.log + [Entry(true, l0.list)])[..|w.log|] == w.log;
  }

  /** What a call of execute does, level by level. When a batch has run after a flush, everything that was queued when
      it was called has run before, unless the flag was down with batches waiting. */
  predicate Outcome(l0: Life, v: Verdict, es: seq<Event>, l: Life) {
    if l0.list == [] || l0.level.Session? then l == l0
    else if Flushes(l0.level, v) then
      && (if l.phase.Ready? then !l.working && RanAfterAll(l0, l) else l.working && l.list == l0.list)
      && (!l0.working ==> l.phase.Ready? && l.log == l0.log + [Entry(true, l0.list)])
    else if v.Taken? then
      && l.phase.Ready? && l.list == []
      && var handing := Meanwhile(l0.(working := true, phase := Marked), es);
         l.queue == handing.queue + [Entry(true, l0.list)] && l.log == handing.log && l.working == handing.working
    else
      l.phase.Ready? && l.list == [] && l.log == l0.log + [Entry(true, l0.list)] && l.queue == l0.queue
  }

  lemma ExecuteDoes(l0: Life, v: Verdict, es: seq<Event>)
    requires l0.phase.Ready?
    ensures Outcome(l0, v, es, AfterExecute(l0, v, es))
  {
    if l0.list != [] && Flushes(l0.level, v) {
      assert Started(l0, v) == l0.(phase := Flushing);
      FlushedAndRunIsLast(l0, es);
    }
  }

  // ----- The classes -----

  /** The batches that were run, without their owners. */
  function OpsOf(log: seq<Entry>): seq<seq<Op>> { if log == [] then [] else OpsOf(log[..|log| - 1]) + [log[|log| - 1].ops] }

  /** The worker, and the world on which the operations act. */
  class CacheWorker<W(!new)> {
    const exec: Exec<W>
    ghost const start: W
    var world: W
    var queue: seq<Entry>
    var log: seq<Entry>
    var working: bool
    var ran: bool
    ghost var before: W   // the world before the last entry of the log

    ghost predicate Valid()
      reads this
    { world == RunAll(exec, OpsOf(log), start) }

    /** The last batch executed was this one, and `ret` is what its functions returned. */
    ghost predicate LastWas(e: Entry, ret: bool)
      reads this
    { log != [] && log[|log| - 1] == e && (world, ret) == ExecuteParts(exec, Parts(e.ops, [], None, 0), before) }

    constructor (exec: Exec<W>, world: W)
      ensures Valid() && queue == [] && log == [] && !working && !ran && this.world == start == world && this.exec == exec
    {
      this.exec, start, this.world := exec, world, world;
      queue, log, working, ran, before := [], [], false, false, world;
    }

    /** j_batch_execute_internal. */
    method ExecuteInternal(e: Entry) returns (ret: bool)
      requires Valid()
      modifies this`world, this`log, this`before
      ensures Valid() && log == old(log) + [e] && before == old(world) && LastWas(e, ret)
    {
      assert (log + [e])[..|log|] == log;
      RunAllAppend(exec, OpsOf(log), e.ops, start);
      var parts;
      before := world;
      ret, world, parts := BatchExecution.ExecuteInternal(e.ops, exec, world);
      log := log + [e];
    }

    /** Another client executes a batch. */
    method Run(e: Entry)
      requires Valid()
      modifies this`world, this`log, this`before
      ensures Valid() && log == old(log) + [e]
    {
      var _ := ExecuteInternal(e);
    }

    /** The worker takes a batch from the queue and executes it. */
    method RunOne()
      requires Valid() && queue != []
      modifies this
      ensures Valid() && queue == old(queue)[1..] && log == old(log) + [old(queue)[0]] && ran && working == old(working)
    {
      var _ := ExecuteInternal(queue[0]);
      queue, ran := queue[1..], true;
    }

    /** A client raises the flag. */
    method Raise()
      requires Valid()
      modifies this`working
      ensures Valid() && working
    {
      working := true;
    }

    /** A client pushes a batch. */
    method Enqueue(e: Entry)
      requires Valid()
      modifies this`queue
      ensures Valid() && queue == old(queue) + [e]
    {
      queue := queue + [e];
    }

    /** The worker updates the flag. */
    method Finish()
      requires Valid()
      modifies this`working, this`ran
      ensures Valid() && working == (queue != []) && !ran
    {
      working, ran := |queue| > 0, false;
    }
  }

  class Batch<W(!new)> {
    const level: Level
    const worker: CacheWorker<W>
    var list: seq<Op>
    var refCount: nat
    var phase: Phase
    ghost var added: seq<Op>
    ghost var dropped: seq<Op>

    ghost function View(): Life
      reads this, worker
    { Life(level, list, refCount, phase, worker.working, worker.ran, worker.queue, worker.log, added, dropped) }

    constructor (level: Level, worker: CacheWorker<W>)
      ensures View() == Born(level).(working := worker.working, ran := worker.ran, queue := worker.queue, log := worker.log)
      ensures this.worker == worker
    {
      this.level, this.worker := level, worker;
      list, refCount, phase, added, dropped := [], 1, Ready, [], [];
    }

    method AddOperation(op: Op)
      requires refCount > 0 && phase.Ready?
      modifies this
      ensures View() == Apply(old(View()), Add(op))
    {
      list := list + [op];
      added := added + [op];
    }

    method TakeRef()
      requires refCount > 0 && phase.Ready?
      modifies this
      ensures View() == Apply(old(View()), Ref)
    {
      refCount := refCount + 1;
    }

    /** What the worker or another client does. */
    method Disturb(e: Event)
      requires worker.Valid()
      modifies worker
      ensures worker.Valid() && View() == Disturbed(old(View()), e)
    {
      if Foreign(e) {
        if e.Work? || e.Finish? { WorkerActs(e); } else { ClientActs(e); }
      }
    }

    method WorkerActs(e: Event)
      requires worker.Valid() && (e.Work? || e.Finish?)
      modifies worker
      ensures worker.Valid() && View() == Disturbed(old(View()), e)
    {
      if e.Finish? {
        if worker.ran { worker.Finish(); }
      } else if worker.queue != [] && !worker.ran {
        worker.RunOne();
      }
    }

    method ClientActs(e: Event)
      requires worker.Valid() && (e.Raise? || e.Hand? || e.RunOther?)
      modifies worker
      ensures worker.Valid() && View() == Disturbed(old(View()), e)
    {
      match e
      case Raise => worker.Raise();
      case Hand(ops) => worker.Enqueue(Entry(false, ops));
      case RunOther(ops) => worker.Run(Entry(false, ops));
    }

    /** What happens between the two steps of handing over. */
    method Interfere(es: seq<Event>)
      requires worker.Valid()
      modifies worker
      ensures worker.Valid() && View() == Meanwhile(old(View()), es)
    {
      var left := es;
      while left != []
        invariant worker.Valid() && Meanwhile(View(), left) == Meanwhile(old(View()), es)
        decreases |left|
      {
        Disturb(left[0]);
        left := left[1..];
      }
    }

    /** j_operation_cache_flush: `meanwhile` is what happens while the thread waits; the flush returns when the flag
        is down. */
    method Flush(meanwhile: seq<Event>) returns (returned: bool)
      requires worker.Valid()
      modifies worker
      ensures worker.Valid() && View() == FlushLoop(old(View()), meanwhile) && returned == !worker.working
    {
      var left := meanwhile;
      while worker.working && left != []
        invariant worker.Valid() && FlushLoop(View(), left) == FlushLoop(old(View()), meanwhile)
        decreases |left|
      {
        Disturb(left[0]);
        left := left[1..];
      }
      returned := !worker.working;
    }

    /** j_batch_execute_internal, then j_list_delete_all. */
    method RunList() returns (ret: bool)
      requires worker.Valid() && phase.Direct?
      modifies this`list, this`phase, worker
      ensures worker.Valid() && View() == Apply(old(View()), RunDirect) && worker.LastWas(Entry(true, old(list)), ret)
    {
      ret := worker.ExecuteInternal(Entry(true, list));
      list, phase := [], Ready;
    }

    /** The flush that comes before a direct run, and the run. */
    method FlushAndRun(meanwhile: seq<Event>) returns (ret: bool, returned: bool)
      requires worker.Valid() && phase.Ready? && list != []
      modifies this`list, this`phase, worker
      ensures worker.Valid() && View() == FlushedAndRun(old(View()).(phase := Flushing), meanwhile)
      ensures returned == phase.Ready? && (returned ==> worker.LastWas(Entry(true, old(list)), ret))
    {
      ret, phase := false, Flushing;
      returned := Flush(meanwhile);
      if returned {
        phase := Direct;
        ret := RunList();
      }
    }

    /** The loop of j_operation_cache_add: asks for every operation in turn whether it can be cached, up to the
        first that cannot. */
    method TestAll(test: Op -> bool) returns (all: bool)
      ensures all <==> forall op <- list :: test(op)
    {
      for i := 0 to |list|
        invariant forall k :: 0 <= k < i ==> test(list[k])
      {
        if !test(list[i]) { return false; }
      }
      return true;
    }

    /** Handing over: the flag is raised, then other things may happen, then the batch is pushed. */
    method HandOver(meanwhile: seq<Event>)
      requires worker.Valid() && phase.Ready? && level.Eventual? && list != []
      modifies this`list, this`phase, worker
      ensures worker.Valid() && View() == Apply(Meanwhile(Started(old(View()), Taken), meanwhile), Push)
    {
      worker.Raise();
      phase := Marked;
      Interfere(meanwhile);
      worker.Enqueue(Entry(true, list));
      list, phase := [], Ready;
    }

    /** j_batch_execute. `returned` is false while a flush still waits. */
    method Execute(test: Op -> bool, granted: bool, meanwhile: seq<Event>) returns (ret: bool, returned: bool)
      requires refCount > 0 && phase.Ready? && worker.Valid()
      modifies this, worker
      ensures worker.Valid() && returned == phase.Ready?
      ensures View() == AfterExecute(old(View()), VerdictOf(old(list), test, granted), meanwhile)
      ensures Outcome(old(View()), VerdictOf(old(list), test, granted), meanwhile, View())
      ensures returned ==> Returns(old(list), VerdictOf(old(list), test, granted), ret)
    {
      ExecuteDoes(View(), VerdictOf(list, test, granted), meanwhile);
      ret, returned := false, true;
      if |list| != 0 {
        match level
        case Eventual => ret, returned := ExecuteEventual(test, granted, meanwhile);
        case Session => ret := true;
        case Immediate => ret, returned := FlushAndRun(meanwhile);
      }
    }

    /** What execute returns: TRUE for a list that is kept for later or handed over, and otherwise what its functions
        return. */
    ghost predicate Returns(was: seq<Op>, v: Verdict, ret: bool)
      reads this, worker
    {
      if was == [] then !ret
      else if level.Session? || (level.Eventual? && v.Taken?) then ret
      else worker.LastWas(Entry(true, was), ret)
    }

    method ExecuteEventual(test: Op -> bool, granted: bool, meanwhile: seq<Event>) returns (ret: bool, returned: bool)
      requires phase.Ready? && worker.Valid() && list != [] && level.Eventual?
      modifies this`list, this`phase, worker
      ensures worker.Valid() && returned == phase.Ready?
      ensures View() == AfterExecute(old(View()), VerdictOf(old(list), test, granted), meanwhile)
      ensures returned ==> Returns(old(list), VerdictOf(old(list), test, granted), ret)
    {
      var all := TestAll(test);
      if !all {
        ret, returned := FlushAndRun(meanwhile);
      } else if !granted {
        phase := Direct;
        ret := RunList();
        returned := true;
      } else {
        HandOver(meanwhile);
        ret, returned := true, true;
      }
    }

    method DropRef()
      requires refCount > 0 && phase.Ready? && worker.Valid()
      modifies this, worker
      ensures worker.Valid() && View() == Apply(old(View()), Unref)
    {
      refCount := refCount - 1;
      if refCount == 0 {
        if level.Session? {
          var _ := worker.ExecuteInternal(Entry(true, list));
        } else {
          dropped := list;
        }
        list := [];
      }
    }

    /** The world is what running the operations one at a time, in the order of the log, makes of it. */
    lemma WorldIsLog()
      requires worker.Valid() && Sequential(worker.exec) && AllComplete(Flatten(OpsOf(worker.log)))
      ensures worker.world == OneByOne(worker.exec, Flatten(OpsOf(worker.log)), worker.start).0
    {
      BatchesMeanOneByOne(worker.exec, OpsOf(worker.log), worker.start);
    }
  }

  ghost function VerdictOf(list: seq<Op>, test: Op -> bool, granted: bool): Verdict {
    if exists op <- list :: !test(op) then NotCacheable else if granted then Taken else NoBuffer
  }

  // ----- Two ways to be overtaken -----

  /** One event more, and what it leads to. */
  lemma Next(events: seq<Event>, e: Event, l: Life, l': Life) returns (events': seq<Event>)
    requires Possible(Eventual, events) && After(Eventual, events) == l && Enabled(l, e) && Apply(l, e) == l'
    ensures events' == events + [e] && Possible(Eventual, events') && After(Eventual, events') == l'
  {
    events' := events + [e];
    AfterNext(Eventual, events, e);
  }

  /** An eventual batch with one reference whose thread is not in the middle of anything. */
  function Plain(list: seq<Op>, working: bool, ran: bool, queue: seq<Entry>, log: seq<Entry>, added: seq<Op>): Life {
    Life(Eventual, list, 1, Ready, working, ran, queue, log, added, [])
  }

  function E(op: Op): Entry { Entry(true, [op]) }

  /** Adding an operation, raising the flag, and pushing. */
  lemma HandedOver(events: seq<Event>, op: Op, working: bool, ran: bool, log: seq<Entry>, added: seq<Op>)
    returns (events': seq<Event>)
    requires Possible(Eventual, events) && After(Eventual, events) == Plain([], working, ran, [], log, added)
    ensures events' == events + [Add(op), Execute(Taken), Push]
    ensures Possible(Eventual, events') && After(Eventual, events') == Plain([], true, ran, [E(op)], log, added + [op])
  {
    var l1 := Plain([op], working, ran, [], log, added + [op]);
    events' := Next(events, Add(op), Plain([], working, ran, [], log, added), l1);
    events' := Next(events', Execute(Taken), l1, l1.(working := true, phase := Marked));
    events' := Next(events', Push, l1.(working := true, phase := Marked), Plain([], true, ran, [E(op)], log, added + [op]));
  }

  /** `b` overtakes `a`: the first execute hands `a` to the worker, the second finds no buffer and runs `b` at
      once, and only then does the worker run `a`. */
  lemma RefusedBufferReorders(a: Op, b: Op) returns (events: seq<Event>)
    ensures events == [Add(a), Execute(Taken), Push, Add(b), Execute(NoBuffer), RunDirect, Work]
    ensures Possible(Eventual, events) && After(Eventual, events) == Plain([], true, true, [], [E(b), E(a)], [a, b])
  {
    assert After(Eventual, []) == Plain([], false, false, [], [], []);
    events := HandedOver([], a, false, false, [], []);
    var l := Plain([b], true, false, [E(a)], [], [a, b]);
    events := Next(events, Add(b), Plain([], true, false, [E(a)], [], [a]), l);
    events := Next(events, Execute(NoBuffer), l, l.(phase := Direct));
    events := Next(events, RunDirect, l.(phase := Direct), Plain([], true, false, [E(a)], [E(b)], [a, b]));
    events := Next(events, Work, Plain([], true, false, [E(a)], [E(b)], [a, b]), Plain([], true, true, [], [E(b), E(a)], [a, b]));
  }

  /** `c` overtakes `b`: the worker finishes `a` between the two steps in which `b` is handed over, so the flush
      before `c` returns at once. */
  lemma EarlyFlushReorders(a: Op, b: Op, c: Op) returns (events: seq<Event>)
    ensures events == [Add(a), Execute(Taken), Push, Work, Add(b), Execute(Taken), Finish, Push,
                       Add(c), Execute(NotCacheable), FlushReturns, RunDirect, Work]
    ensures Possible(Eventual, events)
    ensures After(Eventual, events) == Plain([], false, true, [], [E(a), E(c), E(b)], [a, b, c])
  {
    events := PushedWithFlagDown(a, b);
    var l := Plain([c], false, false, [E(b)], [E(a)], [a, b, c]);
    events := Next(events, Add(c), Plain([], false, false, [E(b)], [E(a)], [a, b]), l);
    events := Next(events, Execute(NotCacheable), l, l.(phase := Flushing));
    events := Next(events, FlushReturns, l.(phase := Flushing), l.(phase := Direct));
    var l' := Plain([], false, false, [E(b)], [E(a), E(c)], [a, b, c]);
    events := Next(events, RunDirect, l.(phase := Direct), l');
    events := Next(events, Work, l', Plain([], false, true, [], [E(a), E(c), E(b)], [a, b, c]));
  }

  lemma PushedWithFlagDown(a: Op, b: Op) returns (events: seq<Event>)
    ensures events == [Add(a), Execute(Taken), Push, Work, Add(b), Execute(Taken), Finish, Push]
    ensures Possible(Eventual, events) && After(Eventual, events) == Plain([], false, false, [E(b)], [E(a)], [a, b])
  {
    assert After(Eventual, []) == Plain([], false, false, [], [], []);
    events := HandedOver([], a, false, false, [], []);
    events := Next(events, Work, Plain([], true, false, [E(a)], [], [a]), Plain([], true, true, [], [E(a)], [a]));
    var l := Plain([b], true, true, [], [E(a)], [a, b]);
    events := Next(events, Add(b), Plain([], true, true, [], [E(a)], [a]), l);
    events := Next(events, Execute(Taken), l, l.(phase := Marked));
    var l' := l.(phase := Marked, working := false, ran := false);
    events := Next(events, Finish, l.(phase := Marked), l');
    events := Next(events, Push, l', Plain([], false, false, [E(b)], [E(a)], [a, b]));
  }
}
