/**
 One queue of the connection pool (lib/core/jconnection-pool.c): `pop` tries the queue, then
 reserves a slot optimistically (check, fetch-and-add, roll back when it came too late) and makes
 a new connection, and otherwise blocks on the queue; `push` gives a connection back.

 The steps are the atomic operations of the code, interleaved over any number of threads. A
 connect that fails keeps its slot and falls through to the blocking pop, as the code does.
 */
module ConnectionPool {

  type Tid = nat
  type Conn = nat

  datatype Pc =
    | Outside      // not in pop
    | Trying       // about to try the queue
    | Checking     // queue was empty, about to read the counter
    | Reserving    // counter was below the bound, about to fetch-and-add
    | Connecting   // has a slot, making the connection
    | RollingBack  // came too late, about to decrement
    | Blocked      // in the blocking pop, because the bound was reached
    | Stranded     // in the blocking pop, because its connect failed

  datatype Thread = Thread(pc: Pc, held: set<Conn>)

  type Threads = map<Tid, Thread>

  datatype State = State(
    count: int,       // the atomic counter
    queue: seq<Conn>,
    made: nat,        // connections made so far; they are numbered in order
    leaked: nat,      // slots of failed connects
    threads: Threads)

  datatype Step =
    | Spawn(t: Tid)
    | Pop(t: Tid)
    | TryHit(t: Tid)
    | TryMiss(t: Tid)
    | Check(t: Tid)
    | Reserve(t: Tid)
    | ConnectOk(t: Tid)
    | ConnectFails(t: Tid)
    | RollBack(t: Tid)
    | BlockedPop(t: Tid)
    | Push(t: Tid, conn: Conn)

  predicate Waiting(pc: Pc) { pc.Blocked? || pc.Stranded? }

  const Init := State(0, [], 0, 0, map[])

  predicate Enabled(s: State, step: Step) {
    if step.Spawn? then step.t !in s.threads
    else
      step.t in s.threads &&
      var pc := s.threads[step.t].pc;
      match step
      case Spawn(_) => false
      case Pop(_) => pc.Outside?
      case TryHit(_) => pc.Trying? && s.queue != []
      case TryMiss(_) => pc.Trying? && s.queue == []
      case Check(_) => pc.Checking?
      case Reserve(_) => pc.Reserving?
      case ConnectOk(_) => pc.Connecting?
      case ConnectFails(_) => pc.Connecting?
      case RollBack(_) => pc.RollingBack?
      case BlockedPop(_) => Waiting(pc) && s.queue != []
      case Push(_, c) => pc.Outside? && c in s.threads[step.t].held
  }

  function Move(s: State, t: Tid, pc: Pc): State
    requires t in s.threads
  { s.(threads := s.threads[t := s.threads[t].(pc := pc)]) }

  /** `t` leaves pop with the head of the queue. */
  function Take(s: State, t: Tid): State
    requires t in s.threads && s.queue != []
  {
    s.(queue := s.queue[1..], threads := s.threads[t := Thread(Outside, s.threads[t].held + {s.queue[0]})])
  }

  function Connect(s: State, t: Tid): State
    requires t in s.threads
  { s.(made := s.made + 1, threads := s.threads[t := Thread(Outside, s.threads[t].held + {s.made})]) }

  function GiveBack(s: State, t: Tid, c: Conn): State
    requires t in s.threads
  { s.(queue := s.queue + [c], threads := s.threads[t := s.threads[t].(held := s.threads[t].held - {c})]) }

  function Apply(max: nat, s: State, step: Step): State
    requires Enabled(s, step)
  {
    var t := step.t;
    match step
    case Spawn(_) => s.(threads := s.threads[t := Thread(Outside, {})])
    case Pop(_) => Move(s, t, Trying)
    case TryHit(_) => Take(s, t)
    case TryMiss(_) => Move(s, t, Checking)
    case Check(_) => Move(s, t, if s.count < max then Reserving else Blocked)
    case Reserve(_) => Move(s, t, if s.count < max then Connecting else RollingBack).(count := s.count + 1)
    case ConnectOk(_) => Connect(s, t)
    case ConnectFails(_) => Move(s, t, Stranded).(leaked := s.leaked + 1)
    case RollBack(_) => Move(s, t, Blocked).(count := s.count - 1)
    case BlockedPop(_) => Take(s, t)
    case Push(_, c) => GiveBack(s, t, c)
  }

  ghost predicate IsRun(max: nat, run: seq<State>, steps: seq<Step>) {
    && |run| == |steps| + 1
    && run[0] == Init
    && forall i {:trigger steps[i]} :: 0 <= i < |steps| ==>
                                         Enabled(run[i], steps[i]) && run[i + 1] == Apply(max, run[i], steps[i])
  }

  // ----- The invariant -----

  function At(threads: Threads, pc: Pc): set<Tid> { set t | t in threads && threads[t].pc == pc }

  function HeldBy(threads: Threads, c: Conn): set<Tid> { set t | t in threads && c in threads[t].held }

  /** Slots in use: a connection exists, is being made, or failed. */
  function Reserved(s: State): nat { s.made + s.leaked + |At(s.threads, Connecting)| }

  predicate SlotsOk(max: nat, s: State) {
    && s.count == Reserved(s) + |At(s.threads, RollingBack)|
    && Reserved(s) <= max
    && (At(s.threads, RollingBack) != {} || At(s.threads, Blocked) != {} ==> Reserved(s) == max)
    && (At(s.threads, Stranded) != {} ==> s.leaked > 0)
  }

  /** In how many places a connection is. */
  function Places(queue: seq<Conn>, threads: Threads, c: Conn): nat { multiset(queue)[c] + |HeldBy(threads, c)| }

  predicate PlacedOnce(queue: seq<Conn>, threads: Threads, made: nat, c: Conn) {
    Places(queue, threads, c) == (if c < made then 1 else 0)
  }

  ghost predicate PlacesOk(queue: seq<Conn>, threads: Threads, made: nat) {
    forall c: Conn :: PlacedOnce(queue, threads, made, c)
  }

  ghost predicate Inv(max: nat, s: State) { SlotsOk(max, s) && PlacesOk(s.queue, s.threads, s.made) }

  // ----- Preservation -----

  lemma AtUpdate(threads: Threads, t: Tid, th: Thread, pc: Pc)
    ensures At(threads[t := th], pc) == (if th.pc == pc then At(threads, pc) + {t} else At(threads, pc) - {t})
    ensures t in At(threads, pc) <==> t in threads && threads[t].pc == pc
  {}

  lemma HeldUpdate(threads: Threads, t: Tid, th: Thread, c: Conn)
    ensures HeldBy(threads[t := th], c) == (if c in th.held then HeldBy(threads, c) + {t} else HeldBy(threads, c) - {t})
    ensures t in HeldBy(threads, c) <==> t in threads && c in threads[t].held
  {}

  /** A thread that keeps what it holds moves no connection. */
  lemma SamePlaces(queue: seq<Conn>, threads: Threads, t: Tid, th: Thread, made: nat)
    requires PlacesOk(queue, threads, made)
    requires th.held == if t in threads then threads[t].held else {}
    ensures PlacesOk(queue, threads[t := th], made)
  {
    var threads' := threads[t := th];
    forall c: Conn ensures PlacedOnce(queue, threads', made, c) {
      assert PlacedOnce(queue, threads, made, c);
      HeldUpdate(threads, t, th, c);
      assert HeldBy(threads', c) == HeldBy(threads, c);
    }
  }

  /** What moving `t` from `pc0` to `pc1` does to the counts that matter. */
  lemma Moves(threads: Threads, t: Tid, th: Thread)
    ensures |At(threads[t := th], Connecting)| == |At(threads, Connecting)|
            + (if th.pc.Connecting? then 1 else 0) - (if t in threads && threads[t].pc.Connecting? then 1 else 0)
    ensures |At(threads[t := th], RollingBack)| == |At(threads, RollingBack)|
            + (if th.pc.RollingBack? then 1 else 0) - (if t in threads && threads[t].pc.RollingBack? then 1 else 0)
    ensures At(threads[t := th], Blocked) == (if th.pc.Blocked? then At(threads, Blocked) + {t} else At(threads, Blocked) - {t})
    ensures At(threads[t := th], Stranded) == (if th.pc.Stranded? then At(threads, Stranded) + {t} else At(threads, Stranded) - {t})
    ensures At(threads[t := th], RollingBack) ==
            (if th.pc.RollingBack? then At(threads, RollingBack) + {t} else At(threads, RollingBack) - {t})
    ensures t in At(threads, RollingBack) <==> t in threads && threads[t].pc.RollingBack?
  {
    AtUpdate(threads, t, th, Connecting);
    AtUpdate(threads, t, th, RollingBack);
    AtUpdate(threads, t, th, Blocked);
    AtUpdate(threads, t, th, Stranded);
  }

  /** The steps that move no connection. */
  lemma QuietKeeps(max: nat, s: State, step: Step)
    requires Inv(max, s) && Enabled(s, step)
    requires !step.TryHit? && !step.BlockedPop? && !step.ConnectOk? && !step.Push?
    ensures Inv(max, Apply(max, s, step))
  {
    var s', t := Apply(max, s, step), step.t;
    Moves(s.threads, t, s'.threads[t]);
    SamePlaces(s.queue, s.threads, t, s'.threads[t], s.made);
  }

  lemma TakePlaces(queue: seq<Conn>, threads: Threads, t: Tid, pc: Pc, made: nat)
    requires PlacesOk(queue, threads, made) && queue != [] && t in threads
    ensures PlacesOk(queue[1..], threads[t := Thread(pc, threads[t].held + {queue[0]})], made)
  {
    var th := Thread(pc, threads[t].held + {queue[0]});
    assert queue == [queue[0]] + queue[1..];
    var queue', threads' := queue[1..], threads[t := th];
    forall c: Conn ensures PlacedOnce(queue', threads', made, c) {
      assert PlacedOnce(queue, threads, made, c);
      HeldUpdate(threads, t, th, c);
      if c == queue[0] {
        assert HeldBy(threads, c) == {};
      } else {
        assert HeldBy(threads', c) == HeldBy(threads, c);
      }
    }
  }

  lemma TakeKeeps(max: nat, s: State, t: Tid)
    requires Inv(max, s) && t in s.threads && (s.threads[t].pc.Trying? || Waiting(s.threads[t].pc)) && s.queue != []
    ensures Inv(max, Take(s, t))
  {
    Moves(s.threads, t, Thread(Outside, s.threads[t].held + {s.queue[0]}));
    TakePlaces(s.queue, s.threads, t, Outside, s.made);
  }

  lemma ConnectPlaces(queue: seq<Conn>, threads: Threads, t: Tid, made: nat)
    requires PlacesOk(queue, threads, made) && t in threads
    ensures PlacesOk(queue, threads[t := Thread(Outside, threads[t].held + {made})], made + 1)
  {
    var th := Thread(Outside, threads[t].held + {made});
    var made', threads' := made + 1, threads[t := th];
    forall c: Conn ensures PlacedOnce(queue, threads', made', c) {
      assert PlacedOnce(queue, threads, made, c);
      HeldUpdate(threads, t, th, c);
      if c == made {
        assert HeldBy(threads, c) == {};
      } else {
        assert HeldBy(threads', c) == HeldBy(threads, c);
      }
    }
  }

  lemma ConnectKeeps(max: nat, s: State, t: Tid)
    requires Inv(max, s) && t in s.threads && s.threads[t].pc.Connecting?
    ensures Inv(max, Connect(s, t))
  {
    Moves(s.threads, t, Thread(Outside, s.threads[t].held + {s.made}));
    ConnectPlaces(s.queue, s.threads, t, s.made);
  }

  lemma PushPlaces(queue: seq<Conn>, threads: Threads, t: Tid, c: Conn, made: nat)
    requires PlacesOk(queue, threads, made) && t in threads && c in threads[t].held
    ensures PlacesOk(queue + [c], threads[t := threads[t].(held := threads[t].held - {c})], made)
  {
    var th := threads[t].(held := threads[t].held - {c});
    var queue', threads' := queue + [c], threads[t := th];
    forall x: Conn ensures PlacedOnce(queue', threads', made, x) {
      assert PlacedOnce(queue, threads, made, x);
      HeldUpdate(threads, t, th, x);
      if x != c { assert HeldBy(threads', x) == HeldBy(threads, x); }
    }
  }

  lemma PushKeeps(max: nat, s: State, t: Tid, c: Conn)
    requires Inv(max, s) && t in s.threads && s.threads[t].pc.Outside? && c in s.threads[t].held
    ensures Inv(max, GiveBack(s, t, c))
  {
    Moves(s.threads, t, s.threads[t].(held := s.threads[t].held - {c}));
    PushPlaces(s.queue, s.threads, t, c, s.made);
  }

  lemma StepKeeps(max: nat, s: State, step: Step)
    requires Inv(max, s) && Enabled(s, step)
    ensures Inv(max, Apply(max, s, step))
  {
    match step
    case TryHit(t) => TakeKeeps(max, s, t);
    case BlockedPop(t) => TakeKeeps(max, s, t);
    case ConnectOk(t) => ConnectKeeps(max, s, t);
    case Push(t, c) => PushKeeps(max, s, t, c);
    case _ => QuietKeeps(max, s, step);
  }

  lemma {:induction false} RunInv(max: nat, run: seq<State>, steps: seq<Step>, i: nat)
    requires IsRun(max, run, steps) && i < |run|
    ensures Inv(max, run[i])
  {
    if i == 0 {
      assert forall c: Conn :: HeldBy(Init.threads, c) == {};
      assert At(Init.threads, Connecting) == {} == At(Init.threads, RollingBack) == At(Init.threads, Blocked) == At(Init.threads, Stranded);
    } else {
      RunInv(max, run, steps, i - 1);
      StepKeeps(max, run[i - 1], steps[i - 1]);
    }
  }

  // ----- Theorems about every interleaving -----

  /** The counter is the number of reserved slots plus the threads about to roll back; it may exceed
      the bound, but the slots never do, and a rollback can only be pending when they are all taken. */
  lemma CounterAccounting(max: nat, run: seq<State>, steps: seq<Step>, i: nat)
    requires IsRun(max, run, steps) && i < |run|
    ensures run[i].count == Reserved(run[i]) + |At(run[i].threads, RollingBack)|
    ensures run[i].made <= Reserved(run[i]) <= max
    ensures At(run[i].threads, RollingBack) != {} ==> Reserved(run[i]) == max
    ensures 0 <= run[i].count <= max + |run[i].threads|
  {
    RunInv(max, run, steps, i);
    Subset(At(run[i].threads, RollingBack), run[i].threads.Keys);
  }

  lemma {:induction false} Subset(a: set<Tid>, b: set<Tid>)
    requires a <= b
    ensures |a| <= |b|
  {
    assert b == a + (b - a);
  }

  /** A thread is in the blocking pop only when every slot is taken. */
  lemma BlocksOnlyWhenFull(max: nat, run: seq<State>, steps: seq<Step>, i: nat, t: Tid)
    requires IsRun(max, run, steps) && i < |run|
    requires t in run[i].threads && run[i].threads[t].pc.Blocked?
    ensures Reserved(run[i]) == max
  {
    RunInv(max, run, steps, i);
    assert t in At(run[i].threads, Blocked);
  }

  /** Every connection ever made is in exactly one place: once in the queue, or with one holder. */
  lemma ExactlyOnePlace(max: nat, run: seq<State>, steps: seq<Step>, i: nat, c: Conn)
    requires IsRun(max, run, steps) && i < |run|
    ensures c < run[i].made ==>
              || (multiset(run[i].queue)[c] == 1 && forall t :: t in run[i].threads ==> c !in run[i].threads[t].held)
              || (c !in run[i].queue && exists t :: t in run[i].threads && HeldBy(run[i].threads, c) == {t})
    ensures c >= run[i].made ==> c !in run[i].queue && forall t :: t in run[i].threads ==> c !in run[i].threads[t].held
  {
    var s := run[i];
    RunInv(max, run, steps, i);
    assert PlacedOnce(s.queue, s.threads, s.made, c);
    var holders := HeldBy(s.threads, c);
    if holders != {} {
      var t :| t in holders;
      assert holders == {t} + (holders - {t});
      assert |holders| == 1 ==> holders == {t};
    }
    assert forall t :: t in s.threads && c in s.threads[t].held ==> t in holders;
  }

  /** Nothing is in the queue, and nobody has a connection or is making one. */
  predicate Starved(s: State) {
    s.queue == [] && At(s.threads, Connecting) == {} && forall t :: t in s.threads ==> s.threads[t].held == {}
  }

  lemma EmptyOrNot(queue: seq<Conn>)
    ensures queue == [] || queue[0] in queue
  {}

  lemma NothingThere(max: nat, s: State)
    requires Inv(max, s)
    ensures Starved(s) <==> Reserved(s) == s.leaked
  {
    if Starved(s) {
      assert PlacedOnce(s.queue, s.threads, s.made, 0);
      assert HeldBy(s.threads, 0) == {};
    }
    if Reserved(s) == s.leaked {
      forall c: Conn ensures c !in s.queue && HeldBy(s.threads, c) == {} {
        assert PlacedOnce(s.queue, s.threads, s.made, c);
      }
      EmptyOrNot(s.queue);
      forall t | t in s.threads ensures s.threads[t].held == {} {
        assert forall c :: c in s.threads[t].held ==> t in HeldBy(s.threads, c);
      }
    }
  }

  /** There is nothing to wait for exactly when every slot taken so far was lost to a failed connect;
      for a thread that blocks because of the bound, exactly when all `max` slots were lost. So while
      connects succeed and the bound is positive, a blocked thread always waits for somebody who has a
      connection or is making one, or for one that is in the queue. */
  lemma StarvedIffSlotsLost(max: nat, run: seq<State>, steps: seq<Step>, i: nat)
    requires IsRun(max, run, steps) && i < |run|
    ensures Starved(run[i]) <==> Reserved(run[i]) == run[i].leaked
    ensures (exists t :: t in run[i].threads && run[i].threads[t].pc.Blocked?) ==> (Starved(run[i]) <==> run[i].leaked == max)
    ensures (exists t :: t in run[i].threads && run[i].threads[t].pc.Stranded?) ==> run[i].leaked > 0
    ensures (exists t :: t in run[i].threads && Waiting(run[i].threads[t].pc)) && run[i].leaked == 0 && max > 0 ==> !Starved(run[i])
  {
    RunInv(max, run, steps, i);
    NothingThere(max, run[i]);
    assert forall t :: t in run[i].threads ==> t in At(run[i].threads, run[i].threads[t].pc);
  }

  /** Lost slots never come back: once they are all lost, no thread ever gets a connection again. */
  lemma {:induction false} LostForever(max: nat, run: seq<State>, steps: seq<Step>, i: nat, j: nat)
    requires IsRun(max, run, steps) && i <= j < |run| && run[i].leaked == max
    ensures run[j].leaked == max && run[j].made == 0 && Starved(run[j])
  {
    if i < j {
      LostForever(max, run, steps, i, j - 1);
      assert run[j] == Apply(max, run[j - 1], steps[j - 1]);
    }
    RunInv(max, run, steps, j);
    NothingThere(max, run[j]);
  }

  /** One failed connect: its thread waits for ever with a bound of one, and it also waits with a larger
      bound, although slots are free. */
  lemma FailedConnectStrands(max: nat) returns (run: seq<State>, steps: seq<Step>)
    requires max > 0
    ensures IsRun(max, run, steps) && 0 in run[|steps|].threads && Waiting(run[|steps|].threads[0].pc)
    ensures Starved(run[|steps|]) && Reserved(run[|steps|]) == 1
  {
    steps := [Spawn(0), Pop(0), TryMiss(0), Check(0), Reserve(0), ConnectFails(0)];
    var s1 := Apply(max, Init, steps[0]);
    var s2 := Apply(max, s1, steps[1]);
    var s3 := Apply(max, s2, steps[2]);
    var s4 := Apply(max, s3, steps[3]);
    var s5 := Apply(max, s4, steps[4]);
    var s6 := Apply(max, s5, steps[5]);
    run := [Init, s1, s2, s3, s4, s5, s6];
    assert s6.threads == map[0 := Thread(Stranded, {})];
    assert At(s6.threads, Connecting) == {};
  }

  // ----- What pop and push deliver -----

  /** The steps that thread `t` takes between states `i` and `j`. */
  function OwnTrace(steps: seq<Step>, t: Tid, i: nat, j: nat): seq<Step>
    requires i <= j <= |steps|
  {
    if i == j then [] else OwnTrace(steps, t, i, j - 1) + if steps[j - 1].t == t then [steps[j - 1]] else []
  }

  /** The ways through pop: a queued connection at once, a new connection, or one that is given back while it waits,
      because the bound was reached at the check, or at the reservation, or because the connect failed. */
  predicate WayThrough(tr: seq<Step>, t: Tid) {
    || tr == [Pop(t), TryHit(t)]
    || tr == [Pop(t), TryMiss(t), Check(t), Reserve(t), ConnectOk(t)]
    || tr == [Pop(t), TryMiss(t), Check(t), BlockedPop(t)]
    || tr == [Pop(t), TryMiss(t), Check(t), Reserve(t), RollBack(t), BlockedPop(t)]
    || tr == [Pop(t), TryMiss(t), Check(t), Reserve(t), ConnectFails(t), BlockedPop(t)]
  }

  /** What an unfinished pop has done so far. */
  predicate Underway(tr: seq<Step>, t: Tid, before: set<Conn>, th: Thread) {
    && th.held == before
    && match th.pc
       case Outside => false
       case Trying => tr == [Pop(t)]
       case Checking => tr == [Pop(t), TryMiss(t)]
       case Reserving => tr == [Pop(t), TryMiss(t), Check(t)]
       case Connecting => tr == [Pop(t), TryMiss(t), Check(t), Reserve(t)]
       case RollingBack => tr == [Pop(t), TryMiss(t), Check(t), Reserve(t)]
       case Blocked =>
         || tr == [Pop(t), TryMiss(t), Check(t)]
         || tr == [Pop(t), TryMiss(t), Check(t), Reserve(t), RollBack(t)]
       case Stranded => tr == [Pop(t), TryMiss(t), Check(t), Reserve(t), ConnectFails(t)]
  }

  predicate GotOne(before: set<Conn>, after: set<Conn>, c: Conn) { c !in before && after == before + {c} }

  /** The step that ends a pop delivers the head of the queue, or the connection that it makes. */
  predicate Delivers(s: State, step: Step, s': State, before: set<Conn>, after: set<Conn>) {
    || (step.ConnectOk? && GotOne(before, after, s.made) && s'.made == s.made + 1 && s'.queue == s.queue)
    || ((step.TryHit? || step.BlockedPop?) && s.queue != [] && GotOne(before, after, s.queue[0])
        && s'.queue == s.queue[1..] && s'.made == s.made)
  }

  /** A connection that is in the queue, or not made yet, is held by nobody. */
  lemma NotHeld(queue: seq<Conn>, threads: Threads, made: nat, t: Tid, c: Conn)
    requires PlacesOk(queue, threads, made) && t in threads && (c in queue || c >= made)
    ensures c !in threads[t].held
  {
    assert PlacedOnce(queue, threads, made, c);
    assert c in queue ==> multiset(queue)[c] >= 1;
    assert HeldBy(threads, c) == {};
    assert t !in HeldBy(threads, c);
  }

  lemma PopStep(max: nat, s: State, step: Step, t: Tid, before: set<Conn>, tr: seq<Step>)
    requires Inv(max, s) && Enabled(s, step) && step.t == t && t in s.threads && Underway(tr, t, before, s.threads[t])
    ensures t in Apply(max, s, step).threads
    ensures var s' := Apply(max, s, step);
            if s'.threads[t].pc.Outside?
            then WayThrough(tr + [step], t) && Delivers(s, step, s', before, s'.threads[t].held)
            else Underway(tr + [step], t, before, s'.threads[t])
  {
    if s.queue != [] { NotHeld(s.queue, s.threads, s.made, t, s.queue[0]); }
    NotHeld(s.queue, s.threads, s.made, t, s.made);
  }

  lemma OtherStep(max: nat, s: State, step: Step, t: Tid)
    requires Enabled(s, step) && t in s.threads && step.t != t
    ensures t in Apply(max, s, step).threads && Apply(max, s, step).threads[t] == s.threads[t]
  {}

  /** What thread `t` has done at state `j` of the pop that it began at state `i`. */
  ghost predicate Shaped(run: seq<State>, steps: seq<Step>, t: Tid, i: nat, j: nat)
    requires i < j < |run| == |steps| + 1
  {
    && t in run[i].threads && t in run[j].threads
    && var before, tr, th := run[i].threads[t].held, OwnTrace(steps, t, i, j), run[j].threads[t];
       if th.pc.Outside?
       then WayThrough(tr, t) && steps[j - 1].t == t && Delivers(run[j - 1], steps[j - 1], run[j], before, th.held)
       else Underway(tr, t, before, th)
  }

  lemma PopGoesOn(max: nat, run: seq<State>, steps: seq<Step>, t: Tid, i: nat, k: nat, j: nat)
    requires IsRun(max, run, steps) && i < k && j == k + 1 < |run| && Shaped(run, steps, t, i, k)
    requires !run[k].threads[t].pc.Outside?
    ensures Shaped(run, steps, t, i, j)
  {
    RunInv(max, run, steps, k);
    if steps[k].t == t {
      PopStep(max, run[k], steps[k], t, run[i].threads[t].held, OwnTrace(steps, t, i, k));
    } else {
      OtherStep(max, run[k], steps[k], t);
      assert OwnTrace(steps, t, i, j) == OwnTrace(steps, t, i, k);
    }
  }

  /** Every pop goes one of the ways of the code, and comes back with exactly one connection more: the one that was
      at the head of the queue, and has left it, or a new one. */
  lemma {:induction false} PopDelivers(max: nat, run: seq<State>, steps: seq<Step>, t: Tid, i: nat, j: nat)
    requires IsRun(max, run, steps) && i < j < |run| && steps[i] == Pop(t)
    requires forall k :: i < k < j ==> t in run[k].threads && !run[k].threads[t].pc.Outside?
    ensures Shaped(run, steps, t, i, j)
  {
    if j == i + 1 {
      assert run[j] == Apply(max, run[i], steps[i]);
      assert OwnTrace(steps, t, i, j) == OwnTrace(steps, t, i, i) + [steps[i]] == [steps[i]];
    } else {
      PopDelivers(max, run, steps, t, i, j - 1);
      PopGoesOn(max, run, steps, t, i, j - 1, j);
    }
  }

  /** Push puts exactly its connection at the end of the queue, and the thread has it no more. */
  lemma PushDelivers(max: nat, run: seq<State>, steps: seq<Step>, i: nat)
    requires IsRun(max, run, steps) && i < |steps| && steps[i].Push?
    ensures var t, c := steps[i].t, steps[i].conn;
            && t in run[i].threads && c in run[i].threads[t].held
            && run[i + 1].queue == run[i].queue + [c]
            && run[i + 1].threads == run[i].threads[t := Thread(Outside, run[i].threads[t].held - {c})]
            && run[i + 1].made == run[i].made && run[i + 1].count == run[i].count
  {}

  /** The counter decides, at the check and again at the reservation, and only the reservation and its rollback, in
      every run, change it. */
  lemma CounterDecides(max: nat, run: seq<State>, steps: seq<Step>, i: nat)
    requires IsRun(max, run, steps) && i < |steps|
    ensures steps[i].t in run[i + 1].threads
    ensures var pc, count := run[i + 1].threads[steps[i].t].pc, run[i].count;
            && (steps[i].Check? ==> if count < max then pc.Reserving? else pc.Blocked?)
            && (steps[i].Reserve? ==> if count < max then pc.Connecting? else pc.RollingBack?)
            && run[i + 1].count == count + (if steps[i].Reserve? then 1 else if steps[i].RollBack? then -1 else 0)
  {}

  /** A thread in pop can go on, unless it waits at an empty queue; a connect can end either way; and a thread outside
      can pop, and push what it holds. */
  lemma PopCanGoOn(s: State, t: Tid, c: Conn) returns (step: Step)
    requires t in s.threads && !(Waiting(s.threads[t].pc) && s.queue == [])
    ensures Enabled(s, step) && step.t == t
    ensures s.threads[t].pc.Connecting? ==> Enabled(s, ConnectOk(t)) && Enabled(s, ConnectFails(t))
    ensures s.threads[t].pc.Outside? && c in s.threads[t].held ==> Enabled(s, Push(t, c))
  {
    match s.threads[t].pc
    case Outside => step := Pop(t);
    case Trying => step := if s.queue == [] then TryMiss(t) else TryHit(t);
    case Checking => step := Check(t);
    case Reserving => step := Reserve(t);
    case Connecting => step := ConnectOk(t);
    case RollingBack => step := RollBack(t);
    case _ => step := BlockedPop(t);
  }
}
