/**
 The file-handle cache of the POSIX object backend (backend/object/posix.c).

 Every thread owns a table of open handles; one global table, guarded by one lock,
 shares the handles between threads and counts the tables that hold each of them.
 `backend_file_get` takes the lock and leaves it held when it returns NULL;
 `backend_file_add` releases it. The protocol is modelled as a state machine whose
 atomic steps are the lock operations, the hash table operations, the reference
 count operations and the system calls, interleaved over any number of threads.
 */
module FileCache {
  import opened Basics

  type Tid = nat
  type Path = string
  type Obj = nat  // the address of a JBackendObject; may be reused after it is freed
  type Fd = nat   // a descriptor number; may be reused after it is closed

  datatype Object = Object(path: Path, fd: Fd, refCount: nat)

  /** Where a thread is. The comment says where the global lock is held. */
  datatype Pc =
    | Idle                    // outside the backend
    | Exited                  // the thread is gone
    | GetWait(path: Path)     // missed in its own table, about to lock
    | Looking(path: Path)     // locked: about to look into the global table
    | Hit(obj: Obj)           // locked: count incremented, not yet in the own table
    | Opening(path: Path)     // locked: backend_file_get returned NULL
    | Adding(obj: Obj)        // locked: handle made, in no table
    | Published(obj: Obj)     // locked: in the global table, not in the own one
    | Leaving                 // locked: about to unlock
    | UnrefWait(obj: Obj)     // removed from its own table, unref pending
    | Unreffing(obj: Obj)     // locked: about to decrement the count
    | Dropping(obj: Obj)      // locked: count is zero, still in the global table
    | Closing(obj: Obj)       // locked: out of the global table, descriptor still open

  /** `exiting`: the thread is dead and its table is being destroyed entry by entry. */
  datatype Thread = Thread(files: map<Path, Obj>, pc: Pc, exiting: bool)

  datatype State = State(
    threads: map<Tid, Thread>,
    lock: Option<Tid>,
    global: map<Path, Obj>,   // jd_backend_file_cache
    heap: map<Obj, Object>,   // the live JBackendObjects
    fds: map<Fd, Obj>,        // the open descriptors, and the handle each was opened for
    opens: nat,               // successful open calls so far
    closes: nat)              // close calls so far

  datatype Step =
    | Spawn(t: Tid)
    | GetOwn(t: Tid, path: Path)
    | GetMiss(t: Tid, path: Path)
    | Lock(t: Tid)
    | LookupHit(t: Tid)
    | LookupMiss(t: Tid)
    | OpenFails(t: Tid)
    | OpenSucceeds(t: Tid, obj: Obj, fd: Fd)
    | Publish(t: Tid)
    | InsertOwn(t: Tid)
    | Unlock(t: Tid)
    | Release(t: Tid, path: Path)   // backend_close, backend_delete after its unlink, or table teardown
    | Exit(t: Tid)
    | Gone(t: Tid)
    | Decrement(t: Tid)
    | DropGlobal(t: Tid)
    | CloseFd(t: Tid)

  predicate Locked(pc: Pc) {
    pc.Looking? || pc.Hit? || pc.Opening? || pc.Adding? || pc.Published? || pc.Leaving?
    || pc.Unreffing? || pc.Dropping? || pc.Closing?
  }

  predicate WantsLock(pc: Pc) { pc.GetWait? || pc.UnrefWait? }

  const Init := State(map[], None, map[], map[], map[], 0, 0)

  // ----- What each step does to the state -----

  function Put(s: State, t: Tid, th: Thread): State { s.(threads := s.threads[t := th]) }

  function Goto(s: State, t: Tid, pc: Pc): State
    requires t in s.threads
  { Put(s, t, s.threads[t].(pc := pc)) }

  function SetCount(s: State, o: Obj, n: nat): State
    requires o in s.heap
  { s.(heap := s.heap[o := s.heap[o].(refCount := n)]) }

  function DoLock(s: State, t: Tid): State
    requires t in s.threads && WantsLock(s.threads[t].pc)
  {
    var pc := s.threads[t].pc;
    Goto(s, t, if pc.GetWait? then Looking(pc.path) else Unreffing(pc.obj)).(lock := Some(t))
  }

  function DoHit(s: State, t: Tid, o: Obj): State
    requires t in s.threads && o in s.heap
  { SetCount(Goto(s, t, Hit(o)), o, s.heap[o].refCount + 1) }

  function DoOpen(s: State, t: Tid, path: Path, o: Obj, fd: Fd): State
    requires t in s.threads
  {
    Goto(s, t, Adding(o)).(heap := s.heap[o := Object(path, fd, 1)], fds := s.fds[fd := o], opens := s.opens + 1)
  }

  function DoPublish(s: State, t: Tid, o: Obj): State
    requires t in s.threads && o in s.heap
  { Goto(s, t, Published(o)).(global := s.global[s.heap[o].path := o]) }

  function DoInsertOwn(s: State, t: Tid, o: Obj): State
    requires t in s.threads && o in s.heap
  { Put(s, t, s.threads[t].(pc := Leaving, files := s.threads[t].files[s.heap[o].path := o])) }

  function DoRelease(s: State, t: Tid, p: Path): State
    requires t in s.threads && p in s.threads[t].files
  { Put(s, t, s.threads[t].(pc := UnrefWait(s.threads[t].files[p]), files := s.threads[t].files - {p})) }

  function DoDecrement(s: State, t: Tid, o: Obj): State
    requires t in s.threads && o in s.heap && s.heap[o].refCount > 0
  {
    var n := s.heap[o].refCount - 1;
    SetCount(Goto(s, t, if n == 0 then Dropping(o) else Leaving), o, n)
  }

  function DoDrop(s: State, t: Tid, o: Obj): State
    requires t in s.threads && o in s.heap
  { Goto(s, t, Closing(o)).(global := s.global - {s.heap[o].path}) }

  function DoClose(s: State, t: Tid, o: Obj): State
    requires t in s.threads && o in s.heap
  { Goto(s, t, Leaving).(heap := s.heap - {o}, fds := s.fds - {s.heap[o].fd}, closes := s.closes + 1) }

  /** May `step` happen in `s`? Only the caller's side of the contract is demanded here:
      a thread releases a handle that its own table holds. */
  predicate Enabled(s: State, step: Step) {
    if step.Spawn? then step.t !in s.threads
    else
      step.t in s.threads &&
      var th := s.threads[step.t];
      match step
      case Spawn(_) => false
      case GetOwn(_, p) => th.pc.Idle? && !th.exiting && p in th.files
      case GetMiss(_, p) => th.pc.Idle? && !th.exiting && p !in th.files
      case Lock(_) => WantsLock(th.pc) && s.lock.None?
      case LookupHit(_) => th.pc.Looking? && th.pc.path in s.global && s.global[th.pc.path] in s.heap
      case LookupMiss(_) => th.pc.Looking? && th.pc.path !in s.global
      case OpenFails(_) => th.pc.Opening?
      case OpenSucceeds(_, o, fd) => th.pc.Opening? && o !in s.heap && fd !in s.fds
      case Publish(_) => th.pc.Adding? && th.pc.obj in s.heap
      case InsertOwn(_) => (th.pc.Hit? || th.pc.Published?) && th.pc.obj in s.heap
      case Unlock(_) => th.pc.Leaving?
      case Release(_, p) => th.pc.Idle? && p in th.files
      case Exit(_) => th.pc.Idle? && !th.exiting
      case Gone(_) => th.pc.Idle? && th.exiting && th.files == map[]
      case Decrement(_) => th.pc.Unreffing? && th.pc.obj in s.heap && s.heap[th.pc.obj].refCount > 0
      case DropGlobal(_) => th.pc.Dropping? && th.pc.obj in s.heap
      case CloseFd(_) => th.pc.Closing? && th.pc.obj in s.heap
  }

  function Apply(s: State, step: Step): State
    requires Enabled(s, step)
  {
    if step.Spawn? then Put(s, step.t, Thread(map[], Idle, false))
    else
      var t := step.t;
      var th := s.threads[t];
      match step
      case Spawn(_) => s
      case GetOwn(_, _) => s
      case GetMiss(_, p) => Goto(s, t, GetWait(p))
      case Lock(_) => DoLock(s, t)
      case LookupHit(_) => DoHit(s, t, s.global[th.pc.path])
      case LookupMiss(_) => Goto(s, t, Opening(th.pc.path))
      case OpenFails(_) => Goto(s, t, Leaving)
      case OpenSucceeds(_, o, fd) => DoOpen(s, t, th.pc.path, o, fd)
      case Publish(_) => DoPublish(s, t, th.pc.obj)
      case InsertOwn(_) => DoInsertOwn(s, t, th.pc.obj)
      case Unlock(_) => Goto(s, t, Idle).(lock := None)
      case Release(_, p) => DoRelease(s, t, p)
      case Exit(_) => Put(s, t, th.(exiting := true))
      case Gone(_) => Goto(s, t, Exited)
      case Decrement(_) => DoDecrement(s, t, th.pc.obj)
      case DropGlobal(_) => DoDrop(s, t, th.pc.obj)
      case CloseFd(_) => DoClose(s, t, th.pc.obj)
  }

  /** A run: the states of an interleaving, one step apart, from the empty cache. */
  ghost predicate IsRun(run: seq<State>, steps: seq<Step>) {
    && |run| == |steps| + 1
    && run[0] == Init
    && forall i {:trigger StepAt(run, steps, i)} :: 0 <= i < |steps| ==> StepAt(run, steps, i)
  }

  ghost predicate StepAt(run: seq<State>, steps: seq<Step>, i: nat)
    requires i < |steps| == |run| - 1
  { Enabled(run[i], steps[i]) && run[i + 1] == Apply(run[i], steps[i]) }

  // ----- Who holds a reference to the handle `o` of path `p` -----

  predicate InTable(th: Thread, p: Path, o: Obj) { p in th.files && th.files[p] == o }

  predicate UnrefPending(th: Thread, o: Obj) { th.pc == UnrefWait(o) || th.pc == Unreffing(o) }

  predicate InFlight(th: Thread, o: Obj) { th.pc == Hit(o) || th.pc == Adding(o) || th.pc == Published(o) }

  predicate Refers(th: Thread, p: Path, o: Obj) { InTable(th, p, o) || UnrefPending(th, o) || InFlight(th, o) }

  function Holders(threads: map<Tid, Thread>, p: Path, o: Obj): set<Tid> {
    set t | t in threads && Refers(threads[t], p, o)
  }

  // ----- The invariant -----

  type Table = map<Path, Obj>
  type Heap = map<Obj, Object>

  predicate Shared(g: Table, h: Heap, o: Obj) { o in h && h[o].path in g && g[h[o].path] == o }

  predicate PcOk(g: Table, h: Heap, th: Thread) {
    match th.pc
    case Idle => true
    case Exited => th.files == map[]
    case GetWait(p) => p !in th.files && !th.exiting
    case Looking(p) => p !in th.files && !th.exiting
    case Opening(p) => p !in th.files && p !in g && !th.exiting
    case Hit(o) => Shared(g, h, o) && h[o].path !in th.files && !th.exiting
    case Adding(o) => o in h && h[o].path !in th.files && h[o].path !in g && !th.exiting
    case Published(o) => Shared(g, h, o) && h[o].path !in th.files && !th.exiting
    case Leaving => true
    case UnrefWait(o) => Shared(g, h, o) && h[o].path !in th.files
    case Unreffing(o) => Shared(g, h, o) && h[o].path !in th.files
    case Dropping(o) => Shared(g, h, o) && h[o].refCount == 0
    case Closing(o) => o in h && h[o].refCount == 0 && h[o].path !in g
  }

  predicate FilesOk(g: Table, h: Heap, files: Table) {
    forall p :: p in files ==> Shared(g, h, files[p]) && h[files[p]].path == p
  }

  predicate ThreadOk(g: Table, h: Heap, th: Thread) { FilesOk(g, h, th.files) && PcOk(g, h, th) }

  /** The program counter of the lock holder, if the lock is held. */
  function HolderPc(threads: map<Tid, Thread>, lock: Option<Tid>): Pc {
    if lock.Some? && lock.value in threads then threads[lock.value].pc else Idle
  }

  predicate ObjOk(g: Table, h: Heap, holder: Pc, o: Obj, count: nat)
    requires o in h
  {
    && h[o].refCount == count
    && (Shared(g, h, o) || holder == Adding(o) || holder == Closing(o))
    && (count == 0 ==> holder == Dropping(o) || holder == Closing(o))
  }

  predicate LockOk(threads: map<Tid, Thread>, lock: Option<Tid>) {
    && (lock.Some? ==> lock.value in threads)
    && (forall t :: t in threads ==> (Locked(threads[t].pc) <==> lock == Some(t)))
  }

  /** `th` and `th'` refer to the same live handles. */
  predicate SameRefs(h: Heap, th: Thread, th': Thread) {
    forall o :: o in h ==> (Refers(th', h[o].path, o) <==> Refers(th, h[o].path, o))
  }

  predicate ThreadsOk(g: Table, h: Heap, threads: map<Tid, Thread>) {
    forall t {:trigger ThreadOk(g, h, threads[t])} :: t in threads ==> ThreadOk(g, h, threads[t])
  }

  predicate ObjsOk(g: Table, h: Heap, threads: map<Tid, Thread>, holder: Pc) {
    forall o {:trigger Holders(threads, h[o].path, o)} :: o in h ==> ObjOk(g, h, holder, o, |Holders(threads, h[o].path, o)|)
  }

  predicate GlobalOk(g: Table, h: Heap) { forall p :: p in g ==> g[p] in h && h[g[p]].path == p }

  predicate FdsOk(h: Heap, fds: map<Fd, Obj>) {
    && (forall o :: o in h ==> h[o].fd in fds && fds[h[o].fd] == o)
    && (forall fd :: fd in fds ==> fds[fd] in h && h[fds[fd]].fd == fd)
  }

  predicate Inv(s: State) {
    && LockOk(s.threads, s.lock)
    && GlobalOk(s.global, s.heap)
    && FdsOk(s.heap, s.fds)
    && s.opens == s.closes + |s.heap|
    && ThreadsOk(s.global, s.heap, s.threads)
    && ObjsOk(s.global, s.heap, s.threads, HolderPc(s.threads, s.lock))
  }

  // ----- Preservation -----

  /** Thread `t` changes: the holders of a handle change by at most `t`. */
  lemma HoldersUpdate(threads: map<Tid, Thread>, t: Tid, th: Thread, p: Path, o: Obj)
    ensures Holders(threads[t := th], p, o) ==
            (if Refers(th, p, o) then Holders(threads, p, o) + {t} else Holders(threads, p, o) - {t})
  {}

  /** `t` keeps every reference it has: so does every handle. */
  lemma QuietHolders(h: Heap, threads: map<Tid, Thread>, t: Tid, th: Thread, o: Obj)
    requires t in threads && o in h && SameRefs(h, threads[t], th)
    ensures Holders(threads[t := th], h[o].path, o) == Holders(threads, h[o].path, o)
  {
    HoldersUpdate(threads, t, th, h[o].path, o);
  }

  /** `t` keeps every reference it has: the counts stay exact. */
  lemma QuietObjs(g: Table, h: Heap, threads: map<Tid, Thread>, t: Tid, th: Thread, holder: Pc, holder': Pc)
    requires t in threads && ObjsOk(g, h, threads, holder)
    requires SameRefs(h, threads[t], th)
    requires holder' == holder || (!holder.Adding? && !holder.Closing? && !holder.Dropping?)
    ensures ObjsOk(g, h, threads[t := th], holder')
  {
    forall o | o in h ensures ObjOk(g, h, holder', o, |Holders(threads[t := th], h[o].path, o)|) {
      assert ObjOk(g, h, holder, o, |Holders(threads, h[o].path, o)|);
      QuietHolders(h, threads, t, th, o);
    }
  }

  /** Thread `t` goes to `pc`, and takes, keeps or frees the lock accordingly. */
  predicate LockMove(lock: Option<Tid>, lock': Option<Tid>, t: Tid, pc: Pc) {
    && (lock' == lock || (lock.None? && lock' == Some(t)) || (lock == Some(t) && lock'.None?))
    && (Locked(pc) <==> lock' == Some(t))
  }

  lemma LockUpdate(threads: map<Tid, Thread>, lock: Option<Tid>, lock': Option<Tid>, t: Tid, th: Thread)
    requires LockOk(threads, lock) && LockMove(lock, lock', t, th.pc)
    ensures LockOk(threads[t := th], lock')
  {}

  /** A step of `t` that keeps heap and tables, and every reference `t` has. */
  lemma QuietKeeps(s: State, s': State, t: Tid, th: Thread)
    requires Inv(s) && t in s.threads
    requires s' == Put(s, t, th).(lock := s'.lock)
    requires ThreadOk(s.global, s.heap, th) && SameRefs(s.heap, s.threads[t], th)
    requires var pc := s.threads[t].pc; !pc.Adding? && !pc.Closing? && !pc.Dropping?
    requires LockMove(s.lock, s'.lock, t, th.pc)
    ensures Inv(s')
  {
    LockUpdate(s.threads, s.lock, s'.lock, t, th);
    QuietObjs(s.global, s.heap, s.threads, t, th, HolderPc(s.threads, s.lock), HolderPc(s'.threads, s'.lock));
  }

  // What a step does to the facts about the one thread that takes it.

  /** The steps that touch nothing but the program counter of the thread (and the lock). */
  predicate LocalMove(g: Table, th: Thread, th': Thread) {
    && th'.files == th.files
    && match th.pc
       case Idle =>
         || (th'.pc.GetWait? && th'.pc.path !in th.files && !th'.exiting)
         || th'.pc.Idle?
         || (th'.pc.Exited? && th.files == map[])
       case GetWait(p) => th' == th.(pc := Looking(p))
       case Looking(p) => th' == th.(pc := Opening(p)) && p !in g
       case Opening(_) => th'.pc.Leaving?
       case Leaving => th'.pc.Idle?
       case UnrefWait(o) => th' == th.(pc := Unreffing(o))
       case _ => false
  }

  lemma LocalThread(g: Table, h: Heap, th: Thread, th': Thread)
    requires ThreadOk(g, h, th) && LocalMove(g, th, th')
    ensures ThreadOk(g, h, th') && SameRefs(h, th, th')
  {}

  lemma InsertOwnThread(g: Table, h: Heap, th: Thread, o: Obj)
    requires ThreadOk(g, h, th) && (th.pc == Hit(o) || th.pc == Published(o))
    ensures o in h && var th' := th.(pc := Leaving, files := th.files[h[o].path := o]);
                      ThreadOk(g, h, th') && SameRefs(h, th, th')
  {}

  lemma ReleaseThread(g: Table, h: Heap, th: Thread, p: Path)
    requires ThreadOk(g, h, th) && th.pc.Idle? && p in th.files
    ensures var th' := th.(pc := UnrefWait(th.files[p]), files := th.files - {p});
            ThreadOk(g, h, th') && SameRefs(h, th, th')
  {}

  /** What the invariant says about one thread. */
  lemma ThreadFacts(s: State, t: Tid)
    requires Inv(s) && t in s.threads
    ensures ThreadOk(s.global, s.heap, s.threads[t]) && (Locked(s.threads[t].pc) <==> s.lock == Some(t))
  {}

  lemma LocalKeeps(s: State, t: Tid, th: Thread, lock: Option<Tid>)
    requires Inv(s) && t in s.threads && LocalMove(s.global, s.threads[t], th)
    requires LockMove(s.lock, lock, t, th.pc)
    ensures Inv(Put(s, t, th).(lock := lock))
  {
    ThreadFacts(s, t);
    LocalThread(s.global, s.heap, s.threads[t], th);
    QuietKeeps(s, Put(s, t, th).(lock := lock), t, th);
  }

  lemma InsertOwnKeeps(s: State, t: Tid, o: Obj)
    requires Inv(s) && t in s.threads && (s.threads[t].pc == Hit(o) || s.threads[t].pc == Published(o))
    ensures o in s.heap && Inv(DoInsertOwn(s, t, o))
  {
    ThreadFacts(s, t);
    InsertOwnThread(s.global, s.heap, s.threads[t], o);
    var s' := DoInsertOwn(s, t, o);
    QuietKeeps(s, s', t, s'.threads[t]);
  }

  lemma ReleaseKeeps(s: State, t: Tid, p: Path)
    requires Inv(s) && t in s.threads && s.threads[t].pc.Idle? && p in s.threads[t].files
    ensures Inv(DoRelease(s, t, p))
  {
    ThreadFacts(s, t);
    ReleaseThread(s.global, s.heap, s.threads[t], p);
    var s' := DoRelease(s, t, p);
    QuietKeeps(s, s', t, s'.threads[t]);
  }

  lemma SpawnKeeps(s: State, t: Tid)
    requires Inv(s) && t !in s.threads
    ensures Inv(Put(s, t, Thread(map[], Idle, false)))
  {
    var th := Thread(map[], Idle, false);
    var s' := Put(s, t, th);
    LockUpdate(s.threads, s.lock, s.lock, t, th);
    SpawnObjs(s.global, s.heap, s.threads, t, th, HolderPc(s.threads, s.lock));
    assert HolderPc(s'.threads, s'.lock) == HolderPc(s.threads, s.lock);
    SpawnThreads(s.global, s.heap, s.threads, t);
  }

  lemma SpawnThreads(g: Table, h: Heap, threads: map<Tid, Thread>, t: Tid)
    requires ThreadsOk(g, h, threads)
    ensures ThreadsOk(g, h, threads[t := Thread(map[], Idle, false)])
  {}

  lemma SpawnObjs(g: Table, h: Heap, threads: map<Tid, Thread>, t: Tid, th: Thread, holder: Pc)
    requires t !in threads && th == Thread(map[], Idle, false) && ObjsOk(g, h, threads, holder)
    ensures ObjsOk(g, h, threads[t := th], holder)
  {
    forall o | o in h ensures ObjOk(g, h, holder, o, |Holders(threads[t := th], h[o].path, o)|) {
      assert ObjOk(g, h, holder, o, |Holders(threads, h[o].path, o)|);
      HoldersUpdate(threads, t, th, h[o].path, o);
      assert Holders(threads[t := th], h[o].path, o) == Holders(threads, h[o].path, o);
    }
  }

  // ----- Steps that change a reference count -----

  function Recount(h: Heap, o: Obj, n: nat): Heap
    requires o in h
  { h[o := h[o].(refCount := n)] }

  /** Recounting `o` disturbs no thread that is not destroying a handle. */
  lemma RecountThread(g: Table, h: Heap, th: Thread, o: Obj, n: nat)
    requires o in h && ThreadOk(g, h, th) && !th.pc.Dropping? && !th.pc.Closing?
    ensures ThreadOk(g, Recount(h, o, n), th)
  {}

  lemma RecountThreads(g: Table, h: Heap, threads: map<Tid, Thread>, t: Tid, th: Thread, o: Obj, n: nat)
    requires o in h && ThreadsOk(g, h, threads) && ThreadOk(g, Recount(h, o, n), th)
    requires forall u :: u in threads && u != t ==> !Locked(threads[u].pc)
    ensures ThreadsOk(g, Recount(h, o, n), threads[t := th])
  {
    forall u | u in threads && u != t ensures ThreadOk(g, Recount(h, o, n), threads[u]) {
      RecountThread(g, h, threads[u], o, n);
    }
  }

  /** `t` gains or loses its one reference to `o`, and nothing else. */
  predicate OneRef(h: Heap, th: Thread, th': Thread, o: Obj, n: nat)
    requires o in h
  {
    && (forall x :: x in h && x != o ==> (Refers(th', h[x].path, x) <==> Refers(th, h[x].path, x)))
    && (if Refers(th', h[o].path, o)
        then !Refers(th, h[o].path, o) && n == h[o].refCount + 1
        else Refers(th, h[o].path, o) && n == h[o].refCount - 1)
  }

  lemma RecountHolders(h: Heap, threads: map<Tid, Thread>, t: Tid, th: Thread, o: Obj, n: nat, x: Obj)
    requires t in threads && o in h && x in h && OneRef(h, threads[t], th, o, n)
    requires h[x].refCount == |Holders(threads, h[x].path, x)|
    ensures Recount(h, o, n)[x].refCount == |Holders(threads[t := th], h[x].path, x)|
  {
    var was := Holders(threads, h[x].path, x);
    HoldersUpdate(threads, t, th, h[x].path, x);
    assert t in was <==> Refers(threads[t], h[x].path, x);
    if x != o { assert Holders(threads[t := th], h[x].path, x) == was; }
  }

  lemma RecountObjs(g: Table, h: Heap, threads: map<Tid, Thread>, t: Tid, th: Thread, o: Obj, n: nat, holder: Pc, holder': Pc)
    requires t in threads && o in h && ObjsOk(g, h, threads, holder) && OneRef(h, threads[t], th, o, n)
    requires !holder.Adding? && !holder.Closing? && !holder.Dropping?
    requires n == 0 ==> holder' == Dropping(o)
    ensures ObjsOk(g, Recount(h, o, n), threads[t := th], holder')
  {
    var h' := Recount(h, o, n);
    forall x | x in h' ensures ObjOk(g, h', holder', x, |Holders(threads[t := th], h'[x].path, x)|) {
      assert ObjOk(g, h, holder, x, |Holders(threads, h[x].path, x)|);
      RecountHolders(h, threads, t, th, o, n, x);
    }
  }

  lemma RecountTables(g: Table, h: Heap, fds: map<Fd, Obj>, o: Obj, n: nat)
    requires o in h && GlobalOk(g, h) && FdsOk(h, fds)
    ensures GlobalOk(g, Recount(h, o, n)) && FdsOk(Recount(h, o, n), fds) && |Recount(h, o, n)| == |h|
  {
    assert Recount(h, o, n).Keys == h.Keys;
  }

  /** The lock holder `t` recounts `o` and goes to `pc`. */
  lemma RecountKeeps(s: State, t: Tid, o: Obj, n: nat, pc: Pc)
    requires Inv(s) && t in s.threads && o in s.heap && Locked(s.threads[t].pc) && Locked(pc)
    requires var was := s.threads[t].pc; !was.Adding? && !was.Closing? && !was.Dropping?
    requires ThreadOk(s.global, Recount(s.heap, o, n), s.threads[t].(pc := pc))
    requires OneRef(s.heap, s.threads[t], s.threads[t].(pc := pc), o, n) && (n == 0 ==> pc == Dropping(o))
    ensures Inv(SetCount(Goto(s, t, pc), o, n))
  {
    var th := s.threads[t].(pc := pc);
    LockUpdate(s.threads, s.lock, s.lock, t, th);
    RecountTables(s.global, s.heap, s.fds, o, n);
    RecountThreads(s.global, s.heap, s.threads, t, th, o, n);
    RecountObjs(s.global, s.heap, s.threads, t, th, o, n, s.threads[t].pc, pc);
    var s' := SetCount(Goto(s, t, pc), o, n);
    assert s'.heap == Recount(s.heap, o, n) && s'.threads == s.threads[t := th];
    assert HolderPc(s'.threads, s'.lock) == pc;
  }

  lemma HitThread(g: Table, h: Heap, th: Thread, o: Obj)
    requires ThreadOk(g, h, th) && th.pc.Looking? && Shared(g, h, o) && h[o].path == th.pc.path
    ensures ThreadOk(g, Recount(h, o, h[o].refCount + 1), th.(pc := Hit(o)))
    ensures OneRef(h, th, th.(pc := Hit(o)), o, h[o].refCount + 1)
  {}

  lemma HitKeeps(s: State, t: Tid, p: Path, o: Obj)
    requires Inv(s) && t in s.threads && s.threads[t].pc == Looking(p) && p in s.global && o == s.global[p]
    ensures o in s.heap && Inv(DoHit(s, t, o))
  {
    GlobalFacts(s.global, s.heap, p);
    HitTo(s, t, o, s.heap[o].refCount + 1);
  }

  lemma GlobalFacts(g: Table, h: Heap, p: Path)
    requires GlobalOk(g, h) && p in g
    ensures Shared(g, h, g[p]) && h[g[p]].path == p
  {}

  lemma HitTo(s: State, t: Tid, o: Obj, n: nat)
    requires Inv(s) && t in s.threads && s.threads[t].pc.Looking? && Shared(s.global, s.heap, o)
    requires s.heap[o].path == s.threads[t].pc.path && n == s.heap[o].refCount + 1
    ensures Inv(SetCount(Goto(s, t, Hit(o)), o, n))
  {
    ThreadFacts(s, t);
    HitThread(s.global, s.heap, s.threads[t], o);
    RecountKeeps(s, t, o, n, Hit(o));
  }

  lemma DecrementThread(g: Table, h: Heap, th: Thread, o: Obj, pc: Pc)
    requires ThreadOk(g, h, th) && th.pc == Unreffing(o) && h[o].refCount > 0
    requires pc == Leaving || (pc == Dropping(o) && h[o].refCount == 1)
    ensures ThreadOk(g, Recount(h, o, h[o].refCount - 1), th.(pc := pc))
    ensures OneRef(h, th, th.(pc := pc), o, h[o].refCount - 1)
  {}

  /** What the invariant says about one handle. */
  lemma ObjFacts(g: Table, h: Heap, threads: map<Tid, Thread>, holder: Pc, o: Obj)
    requires ObjsOk(g, h, threads, holder) && o in h
    ensures ObjOk(g, h, holder, o, |Holders(threads, h[o].path, o)|)
  {}

  /** A handle that somebody refers to has a positive count. */
  lemma ReferredIsCounted(g: Table, h: Heap, threads: map<Tid, Thread>, holder: Pc, t: Tid, o: Obj)
    requires ObjsOk(g, h, threads, holder) && o in h && t in threads && Refers(threads[t], h[o].path, o)
    ensures h[o].refCount > 0
  {
    ObjFacts(g, h, threads, holder, o);
    assert t in Holders(threads, h[o].path, o);
  }

  /** A thread about to decrement a count has a handle with a positive count in its hands. */
  lemma UnreffingFacts(s: State, t: Tid, o: Obj)
    requires Inv(s) && t in s.threads && s.threads[t].pc == Unreffing(o)
    ensures o in s.heap && s.heap[o].refCount > 0
  {
    ThreadFacts(s, t);
    ReferredIsCounted(s.global, s.heap, s.threads, HolderPc(s.threads, s.lock), t, o);
  }

  lemma DecrementKeeps(s: State, t: Tid, o: Obj)
    requires Inv(s) && t in s.threads && s.threads[t].pc == Unreffing(o)
    ensures o in s.heap && s.heap[o].refCount > 0 && Inv(DoDecrement(s, t, o))
  {
    UnreffingFacts(s, t, o);
    DecrementTo(s, t, o, if s.heap[o].refCount == 1 then Dropping(o) else Leaving);
  }

  lemma DecrementTo(s: State, t: Tid, o: Obj, pc: Pc)
    requires Inv(s) && t in s.threads && s.threads[t].pc == Unreffing(o) && o in s.heap && s.heap[o].refCount > 0
    requires if s.heap[o].refCount == 1 then pc == Dropping(o) else pc == Leaving
    ensures Inv(SetCount(Goto(s, t, pc), o, s.heap[o].refCount - 1))
  {
    ThreadFacts(s, t);
    DecrementThread(s.global, s.heap, s.threads[t], o, pc);
    RecountKeeps(s, t, o, s.heap[o].refCount - 1, pc);
  }

  // ----- Steps that make or destroy a handle -----

  /** Every reference of a thread is to a live handle. */
  lemma RefersLive(g: Table, h: Heap, th: Thread, p: Path, o: Obj)
    requires ThreadOk(g, h, th) && Refers(th, p, o)
    ensures o in h
  {}

  lemma OpenThread(g: Table, h: Heap, th: Thread, p: Path, o: Obj, fd: Fd)
    requires ThreadOk(g, h, th) && o !in h
    ensures ThreadOk(g, h[o := Object(p, fd, 1)], th)
  {}

  lemma OpenThreads(g: Table, h: Heap, threads: map<Tid, Thread>, t: Tid, p: Path, o: Obj, fd: Fd)
    requires ThreadsOk(g, h, threads) && t in threads && threads[t].pc == Opening(p) && o !in h
    ensures ThreadsOk(g, h[o := Object(p, fd, 1)], threads[t := threads[t].(pc := Adding(o))])
  {
    forall u | u in threads ensures ThreadOk(g, h[o := Object(p, fd, 1)], threads[u]) {
      OpenThread(g, h, threads[u], p, o, fd);
    }
  }

  lemma OpenHolders(g: Table, h: Heap, threads: map<Tid, Thread>, t: Tid, p: Path, o: Obj)
    requires ThreadsOk(g, h, threads) && t in threads && threads[t].pc == Opening(p) && o !in h
    ensures Holders(threads[t := threads[t].(pc := Adding(o))], p, o) == {t}
  {
    forall u | u in threads ensures !Refers(threads[u], p, o) {
      if Refers(threads[u], p, o) { RefersLive(g, h, threads[u], p, o); }
    }
  }

  lemma OpenObjs(g: Table, h: Heap, threads: map<Tid, Thread>, t: Tid, p: Path, o: Obj, fd: Fd)
    requires ThreadsOk(g, h, threads) && t in threads && threads[t].pc == Opening(p) && o !in h
    requires ObjsOk(g, h, threads, Opening(p))
    ensures ObjsOk(g, h[o := Object(p, fd, 1)], threads[t := threads[t].(pc := Adding(o))], Adding(o))
  {
    var h', th := h[o := Object(p, fd, 1)], threads[t].(pc := Adding(o));
    OpenHolders(g, h, threads, t, p, o);
    assert SameRefs(h, threads[t], th);
    forall x | x in h ensures ObjOk(g, h', Adding(o), x, |Holders(threads[t := th], h[x].path, x)|) {
      assert ObjOk(g, h, Opening(p), x, |Holders(threads, h[x].path, x)|);
      QuietHolders(h, threads, t, th, x);
    }
  }

  lemma OpenTables(g: Table, h: Heap, fds: map<Fd, Obj>, o: Obj, b: Object)
    requires o !in h && b.fd !in fds && GlobalOk(g, h) && FdsOk(h, fds)
    ensures GlobalOk(g, h[o := b]) && FdsOk(h[o := b], fds[b.fd := o]) && |h[o := b]| == |h| + 1
  {
    assert h[o := b].Keys == h.Keys + {o};
  }

  lemma OpenKeeps(s: State, t: Tid, p: Path, o: Obj, fd: Fd)
    requires Inv(s) && t in s.threads && s.threads[t].pc == Opening(p) && o !in s.heap && fd !in s.fds
    ensures Inv(DoOpen(s, t, p, o, fd))
  {
    var s', th := DoOpen(s, t, p, o, fd), s.threads[t].(pc := Adding(o));
    LockUpdate(s.threads, s.lock, s.lock, t, th);
    OpenTables(s.global, s.heap, s.fds, o, Object(p, fd, 1));
    OpenThreads(s.global, s.heap, s.threads, t, p, o, fd);
    OpenObjs(s.global, s.heap, s.threads, t, p, o, fd);
    assert HolderPc(s'.threads, s'.lock) == Adding(o);
  }

  lemma PublishThread(g: Table, h: Heap, th: Thread, o: Obj)
    requires ThreadOk(g, h, th) && !Locked(th.pc) && o in h && h[o].path !in g
    ensures ThreadOk(g[h[o].path := o], h, th)
  {}

  lemma PublisherThread(g: Table, h: Heap, th: Thread, o: Obj)
    requires ThreadOk(g, h, th) && th.pc == Adding(o)
    ensures o in h && ThreadOk(g[h[o].path := o], h, th.(pc := Published(o)))
    ensures SameRefs(h, th, th.(pc := Published(o)))
  {}

  lemma PublishThreads(g: Table, h: Heap, threads: map<Tid, Thread>, t: Tid, o: Obj)
    requires ThreadsOk(g, h, threads) && t in threads && threads[t].pc == Adding(o) && o in h && h[o].path !in g
    requires forall u :: u in threads && u != t ==> !Locked(threads[u].pc)
    ensures ThreadsOk(g[h[o].path := o], h, threads[t := threads[t].(pc := Published(o))])
  {
    PublisherThread(g, h, threads[t], o);
    forall u | u in threads && u != t ensures ThreadOk(g[h[o].path := o], h, threads[u]) {
      PublishThread(g, h, threads[u], o);
    }
  }

  lemma PublishObjs(g: Table, h: Heap, threads: map<Tid, Thread>, t: Tid, th: Thread, o: Obj)
    requires t in threads && o in h && h[o].path !in g
    requires SameRefs(h, threads[t], th) && ObjsOk(g, h, threads, Adding(o))
    ensures ObjsOk(g[h[o].path := o], h, threads[t := th], Published(o))
  {
    var g' := g[h[o].path := o];
    forall x | x in h ensures ObjOk(g', h, Published(o), x, |Holders(threads[t := th], h[x].path, x)|) {
      assert ObjOk(g, h, Adding(o), x, |Holders(threads, h[x].path, x)|);
      QuietHolders(h, threads, t, th, x);
    }
  }

  lemma PublishTable(g: Table, h: Heap, o: Obj)
    requires GlobalOk(g, h) && o in h
    ensures GlobalOk(g[h[o].path := o], h)
  {}

  lemma PublishKeeps(s: State, t: Tid, o: Obj)
    requires Inv(s) && t in s.threads && s.threads[t].pc == Adding(o)
    ensures o in s.heap && Inv(DoPublish(s, t, o))
  {
    ThreadFacts(s, t);
    var s', th := DoPublish(s, t, o), s.threads[t].(pc := Published(o));
    PublisherThread(s.global, s.heap, s.threads[t], o);
    LockUpdate(s.threads, s.lock, s.lock, t, th);
    PublishThreads(s.global, s.heap, s.threads, t, o);
    PublishObjs(s.global, s.heap, s.threads, t, th, o);
    PublishTable(s.global, s.heap, o);
    assert s'.global == s.global[s.heap[o].path := o] && s'.threads == s.threads[t := th];
    assert HolderPc(s'.threads, s'.lock) == Published(o);
  }

  /** A handle with count zero is in no table and in nobody's hands. */
  lemma ZeroUnreferenced(g: Table, h: Heap, threads: map<Tid, Thread>, holder: Pc, o: Obj)
    requires ObjsOk(g, h, threads, holder) && o in h && h[o].refCount == 0
    ensures Holders(threads, h[o].path, o) == {}
  {
    ObjFacts(g, h, threads, holder, o);
  }

  /** Nobody but `t` can hold the lock. */
  predicate OthersOut(threads: map<Tid, Thread>, t: Tid) { forall u :: u in threads && u != t ==> !Locked(threads[u].pc) }

  lemma HolderAlone(threads: map<Tid, Thread>, lock: Option<Tid>, t: Tid)
    requires LockOk(threads, lock) && t in threads && Locked(threads[t].pc)
    ensures OthersOut(threads, t) && HolderPc(threads, lock) == threads[t].pc
  {}

  lemma DropThread(g: Table, h: Heap, th: Thread, o: Obj)
    requires ThreadOk(g, h, th) && !Locked(th.pc) && Shared(g, h, o) && !Refers(th, h[o].path, o)
    ensures ThreadOk(g - {h[o].path}, h, th)
  {}

  lemma DropperThread(g: Table, h: Heap, th: Thread, o: Obj)
    requires ThreadOk(g, h, th) && th.pc == Dropping(o) && !Refers(th, h[o].path, o)
    ensures ThreadOk(g - {h[o].path}, h, th.(pc := Closing(o))) && SameRefs(h, th, th.(pc := Closing(o)))
  {}

  lemma DropThreads(g: Table, h: Heap, threads: map<Tid, Thread>, t: Tid, o: Obj)
    requires ThreadsOk(g, h, threads) && t in threads && threads[t].pc == Dropping(o) && Shared(g, h, o)
    requires Holders(threads, h[o].path, o) == {} && OthersOut(threads, t)
    ensures ThreadsOk(g - {h[o].path}, h, threads[t := threads[t].(pc := Closing(o))])
    ensures SameRefs(h, threads[t], threads[t].(pc := Closing(o)))
  {
    assert t !in Holders(threads, h[o].path, o);
    DropperThread(g, h, threads[t], o);
    forall u | u in threads && u != t ensures ThreadOk(g - {h[o].path}, h, threads[u]) {
      assert u !in Holders(threads, h[o].path, o);
      DropThread(g, h, threads[u], o);
    }
  }

  lemma DropObjs(g: Table, h: Heap, threads: map<Tid, Thread>, t: Tid, th: Thread, o: Obj)
    requires t in threads && Shared(g, h, o) && SameRefs(h, threads[t], th) && ObjsOk(g, h, threads, Dropping(o))
    ensures ObjsOk(g - {h[o].path}, h, threads[t := th], Closing(o))
  {
    var g' := g - {h[o].path};
    forall x | x in h ensures ObjOk(g', h, Closing(o), x, |Holders(threads[t := th], h[x].path, x)|) {
      assert ObjOk(g, h, Dropping(o), x, |Holders(threads, h[x].path, x)|);
      QuietHolders(h, threads, t, th, x);
    }
  }

  lemma DropKeeps(s: State, t: Tid, o: Obj)
    requires Inv(s) && t in s.threads && s.threads[t].pc == Dropping(o)
    ensures o in s.heap && Inv(DoDrop(s, t, o))
  {
    ThreadFacts(s, t);
    DropParts(s.global, s.heap, s.threads, s.lock, t, o);
    assert |s.heap| == |DoDrop(s, t, o).heap|;
    DropTable(s.global, s.heap, o);
  }

  lemma DropTable(g: Table, h: Heap, o: Obj)
    requires GlobalOk(g, h) && o in h
    ensures GlobalOk(g - {h[o].path}, h)
  {}

  /** What the step does to the facts about threads and handles. */
  lemma DropParts(g: Table, h: Heap, threads: map<Tid, Thread>, lock: Option<Tid>, t: Tid, o: Obj)
    requires LockOk(threads, lock) && ThreadsOk(g, h, threads) && ObjsOk(g, h, threads, HolderPc(threads, lock))
    requires t in threads && threads[t].pc == Dropping(o) && Shared(g, h, o) && h[o].refCount == 0
    ensures var g', threads' := g - {h[o].path}, threads[t := threads[t].(pc := Closing(o))];
            && LockOk(threads', lock) && ThreadsOk(g', h, threads') && ObjsOk(g', h, threads', HolderPc(threads', lock))
  {
    HolderAlone(threads, lock, t);
    ZeroUnreferenced(g, h, threads, HolderPc(threads, lock), o);
    DropThreads(g, h, threads, t, o);
    LockUpdate(threads, lock, lock, t, threads[t].(pc := Closing(o)));
    DropObjs(g, h, threads, t, threads[t].(pc := Closing(o)), o);
  }

  lemma CloseThread(g: Table, h: Heap, th: Thread, o: Obj)
    requires ThreadOk(g, h, th) && !Locked(th.pc) && o in h && !Refers(th, h[o].path, o)
    ensures ThreadOk(g, h - {o}, th)
  {}

  lemma CloserThread(g: Table, h: Heap, th: Thread, o: Obj)
    requires ThreadOk(g, h, th) && th.pc == Closing(o) && !Refers(th, h[o].path, o)
    ensures ThreadOk(g, h - {o}, th.(pc := Leaving)) && SameRefs(h, th, th.(pc := Leaving))
  {}

  lemma CloseThreads(g: Table, h: Heap, threads: map<Tid, Thread>, t: Tid, o: Obj)
    requires ThreadsOk(g, h, threads) && t in threads && threads[t].pc == Closing(o) && o in h
    requires Holders(threads, h[o].path, o) == {} && OthersOut(threads, t)
    ensures ThreadsOk(g, h - {o}, threads[t := threads[t].(pc := Leaving)])
    ensures SameRefs(h, threads[t], threads[t].(pc := Leaving))
  {
    assert t !in Holders(threads, h[o].path, o);
    CloserThread(g, h, threads[t], o);
    forall u | u in threads && u != t ensures ThreadOk(g, h - {o}, threads[u]) {
      assert u !in Holders(threads, h[o].path, o);
      CloseThread(g, h, threads[u], o);
    }
  }

  lemma CloseObjs(g: Table, h: Heap, threads: map<Tid, Thread>, t: Tid, th: Thread, o: Obj)
    requires t in threads && o in h && SameRefs(h, threads[t], th) && ObjsOk(g, h, threads, Closing(o))
    ensures ObjsOk(g, h - {o}, threads[t := th], Leaving)
  {
    forall x | x in h && x != o ensures ObjOk(g, h - {o}, Leaving, x, |Holders(threads[t := th], h[x].path, x)|) {
      assert ObjOk(g, h, Closing(o), x, |Holders(threads, h[x].path, x)|);
      QuietHolders(h, threads, t, th, x);
    }
  }

  lemma CloseTables(g: Table, h: Heap, fds: map<Fd, Obj>, o: Obj)
    requires o in h && h[o].path !in g && GlobalOk(g, h) && FdsOk(h, fds)
    ensures GlobalOk(g, h - {o}) && FdsOk(h - {o}, fds - {h[o].fd}) && |h - {o}| == |h| - 1
  {
    assert (h - {o}).Keys == h.Keys - {o};
  }

  lemma CloseKeeps(s: State, t: Tid, o: Obj)
    requires Inv(s) && t in s.threads && s.threads[t].pc == Closing(o)
    ensures o in s.heap && Inv(DoClose(s, t, o))
  {
    ThreadFacts(s, t);
    CloseParts(s.global, s.heap, s.threads, s.lock, t, o);
    CloseTables(s.global, s.heap, s.fds, o);
  }

  lemma CloseParts(g: Table, h: Heap, threads: map<Tid, Thread>, lock: Option<Tid>, t: Tid, o: Obj)
    requires LockOk(threads, lock) && ThreadsOk(g, h, threads) && ObjsOk(g, h, threads, HolderPc(threads, lock))
    requires t in threads && threads[t].pc == Closing(o) && o in h && h[o].refCount == 0
    ensures var threads' := threads[t := threads[t].(pc := Leaving)];
            && LockOk(threads', lock) && ThreadsOk(g, h - {o}, threads') && ObjsOk(g, h - {o}, threads', HolderPc(threads', lock))
  {
    HolderAlone(threads, lock, t);
    ZeroUnreferenced(g, h, threads, HolderPc(threads, lock), o);
    CloseThreads(g, h, threads, t, o);
    LockUpdate(threads, lock, lock, t, threads[t].(pc := Leaving));
    CloseObjs(g, h, threads, t, threads[t].(pc := Leaving), o);
  }

  /** The steps that touch nothing but the thread that takes them, and the lock. */
  predicate IsLocal(step: Step) {
    step.GetOwn? || step.GetMiss? || step.Lock? || step.LookupMiss? || step.OpenFails? || step.Unlock? || step.Exit? || step.Gone?
  }

  lemma LocalStepKeeps(s: State, step: Step)
    requires Inv(s) && Enabled(s, step) && IsLocal(step)
    ensures Inv(Apply(s, step))
  {
    var t := step.t;
    ThreadFacts(s, t);
    var th := s.threads[t];
    match step
    case GetOwn(_, _) =>
    case GetMiss(_, p) => LocalKeeps(s, t, th.(pc := GetWait(p)), s.lock);
    case Lock(_) => LocalKeeps(s, t, DoLock(s, t).threads[t], Some(t));
    case LookupMiss(_) => LocalKeeps(s, t, th.(pc := Opening(th.pc.path)), s.lock);
    case OpenFails(_) => LocalKeeps(s, t, th.(pc := Leaving), s.lock);
    case Unlock(_) => LocalKeeps(s, t, th.(pc := Idle), None);
    case Exit(_) => LocalKeeps(s, t, th.(exiting := true), s.lock);
    case Gone(_) => LocalKeeps(s, t, th.(pc := Exited), s.lock);
  }

  lemma SharedStepKeeps(s: State, step: Step)
    requires Inv(s) && Enabled(s, step) && !IsLocal(step) && !step.Spawn?
    ensures Inv(Apply(s, step))
  {
    var t := step.t;
    var pc := s.threads[t].pc;
    match step
    case LookupHit(_) => HitKeeps(s, t, pc.path, s.global[pc.path]);
    case Decrement(_) => DecrementKeeps(s, t, pc.obj);
    case OpenSucceeds(_, o, fd) => OpenKeeps(s, t, pc.path, o, fd);
    case Publish(_) => PublishKeeps(s, t, pc.obj);
    case InsertOwn(_) => InsertOwnKeeps(s, t, pc.obj);
    case Release(_, p) => ReleaseKeeps(s, t, p);
    case DropGlobal(_) => DropKeeps(s, t, pc.obj);
    case CloseFd(_) => CloseKeeps(s, t, pc.obj);
  }

  lemma StepKeeps(s: State, step: Step)
    requires Inv(s) && Enabled(s, step)
    ensures Inv(Apply(s, step))
  {
    if step.Spawn? {
      SpawnKeeps(s, step.t);
    } else if IsLocal(step) {
      LocalStepKeeps(s, step);
    } else {
      SharedStepKeeps(s, step);
    }
  }

  lemma InitInv()
    ensures Inv(Init)
  {}

  lemma StepAtKeeps(run: seq<State>, steps: seq<Step>, i: nat, j: nat)
    requires IsRun(run, steps) && j == i + 1 < |run| && Inv(run[i])
    ensures Inv(run[j])
  {
    assert StepAt(run, steps, i);
    StepKeeps(run[i], steps[i]);
  }

  /** Every state of every interleaving satisfies the invariant. */
  lemma {:induction false} RunInv(run: seq<State>, steps: seq<Step>, i: nat)
    requires IsRun(run, steps) && i < |run|
    ensures Inv(run[i])
  {
    if i == 0 {
      InitInv();
    } else {
      RunInv(run, steps, i - 1);
      StepAtKeeps(run, steps, i - 1, i);
    }
  }

  // ----- Theorems about every interleaving -----

  lemma RunThread(run: seq<State>, steps: seq<Step>, i: nat, t: Tid)
    requires IsRun(run, steps) && i < |run| && t in run[i].threads
    ensures ThreadOk(run[i].global, run[i].heap, run[i].threads[t])
    ensures Locked(run[i].threads[t].pc) <==> run[i].lock == Some(t)
  {
    RunInv(run, steps, i);
    ThreadFacts(run[i], t);
  }

  function TableHolders(s: State, o: Obj): set<Tid>
    requires o in s.heap
  { set t | t in s.threads && InTable(s.threads[t], s.heap[o].path, o) }

  function PendingHolders(s: State, o: Obj): set<Tid> { set t | t in s.threads && UnrefPending(s.threads[t], o) }

  function InFlightHolders(s: State, o: Obj): set<Tid> { set t | t in s.threads && InFlight(s.threads[t], o) }

  lemma RefersOneWay(g: Table, h: Heap, th: Thread, o: Obj)
    requires ThreadOk(g, h, th) && o in h
    ensures !(InTable(th, h[o].path, o) && UnrefPending(th, o))
    ensures !(InTable(th, h[o].path, o) && InFlight(th, o))
    ensures !(UnrefPending(th, o) && InFlight(th, o))
  {}

  lemma HoldersDisjoint(s: State, o: Obj)
    requires o in s.heap && ThreadsOk(s.global, s.heap, s.threads)
    ensures TableHolders(s, o) !! PendingHolders(s, o)
    ensures TableHolders(s, o) !! InFlightHolders(s, o)
    ensures PendingHolders(s, o) !! InFlightHolders(s, o)
  {
    forall t | t in TableHolders(s, o) ensures t !in PendingHolders(s, o) && t !in InFlightHolders(s, o) {
      RefersOneWay(s.global, s.heap, s.threads[t], o);
    }
  }

  lemma HoldersSplit(s: State, o: Obj)
    requires o in s.heap && ThreadsOk(s.global, s.heap, s.threads)
    ensures |Holders(s.threads, s.heap[o].path, o)| ==
            |TableHolders(s, o)| + |PendingHolders(s, o)| + |InFlightHolders(s, o)|
  {
    var a, b, c := TableHolders(s, o), PendingHolders(s, o), InFlightHolders(s, o);
    HoldersDisjoint(s, o);
    DisjointUnion(a, b, c);
    assert Holders(s.threads, s.heap[o].path, o) == a + b + c;
  }

  lemma DisjointUnion<T>(a: set<T>, b: set<T>, c: set<T>)
    requires a !! b && a !! c && b !! c
    ensures |a + b + c| == |a| + |b| + |c|
  {
    assert (a + b) !! c;
  }

  /** The reference count is the number of thread tables that hold the handle, plus the threads
      that removed it and have not finished unref, plus the lock holder while it passes the
      handle on; it is positive unless the lock holder is just destroying the handle. */
  lemma RefCountExact(run: seq<State>, steps: seq<Step>, i: nat, o: Obj)
    requires IsRun(run, steps) && i < |run| && o in run[i].heap
    ensures run[i].heap[o].refCount ==
            |TableHolders(run[i], o)| + |PendingHolders(run[i], o)| + |InFlightHolders(run[i], o)|
    ensures forall t :: t in InFlightHolders(run[i], o) ==> run[i].lock == Some(t)
    ensures run[i].heap[o].refCount >= 1 || HolderPc(run[i].threads, run[i].lock) in {Dropping(o), Closing(o)}
  {
    var s := run[i];
    RunInv(run, steps, i);
    HoldersSplit(s, o);
    assert ObjOk(s.global, s.heap, HolderPc(s.threads, s.lock), o, |Holders(s.threads, s.heap[o].path, o)|);
  }

  /** Two threads that hold a handle for the same path hold the same object; it is the one in the
      global table, its descriptor is open, and that descriptor belongs to no other object. */
  lemma SamePathSameHandle(run: seq<State>, steps: seq<Step>, i: nat, t: Tid, u: Tid, p: Path)
    requires IsRun(run, steps) && i < |run|
    requires t in run[i].threads && u in run[i].threads
    requires p in run[i].threads[t].files && p in run[i].threads[u].files
    ensures run[i].threads[t].files[p] == run[i].threads[u].files[p]
    ensures var o := run[i].threads[t].files[p];
            && p in run[i].global && run[i].global[p] == o && o in run[i].heap && run[i].heap[o].path == p
            && run[i].heap[o].fd in run[i].fds && run[i].fds[run[i].heap[o].fd] == o
            && forall x :: x in run[i].heap && x != o ==> run[i].heap[x].fd != run[i].heap[o].fd
  {
    RunInv(run, steps, i);
    RunThread(run, steps, i, t);
    RunThread(run, steps, i, u);
  }

  lemma CloseFacts(s: State, t: Tid, o: Obj)
    requires Inv(s) && t in s.threads && s.threads[t].pc == Closing(o)
    ensures o in s.heap && s.heap[o].fd in s.fds && s.fds[s.heap[o].fd] == o
    ensures Holders(s.threads, s.heap[o].path, o) == {}
  {
    ThreadFacts(s, t);
    ZeroUnreferenced(s.global, s.heap, s.threads, HolderPc(s.threads, s.lock), o);
  }

  lemma FdsFrame(s: State, step: Step)
    requires Enabled(s, step)
    ensures !step.CloseFd? ==> forall fd :: fd in s.fds ==> fd in Apply(s, step).fds
  {}

  /** close is only ever called on an open descriptor, the one its own handle opened, when no thread
      refers to the handle any more; no other step closes anything; and opens and closes balance up to
      the live handles. */
  lemma ClosedExactlyOnce(run: seq<State>, steps: seq<Step>, i: nat, o: Obj)
    requires IsRun(run, steps) && i < |steps|
    ensures run[i].opens == run[i].closes + |run[i].heap|
    ensures steps[i].CloseFd? ==> steps[i].t in run[i].threads && run[i].threads[steps[i].t].pc.Closing?
    ensures steps[i].CloseFd? && run[i].threads[steps[i].t].pc == Closing(o) ==>
              && o in run[i].heap && o !in run[i + 1].heap
              && run[i].heap[o].fd in run[i].fds && run[i].fds[run[i].heap[o].fd] == o
              && run[i].heap[o].fd !in run[i + 1].fds
              && Holders(run[i].threads, run[i].heap[o].path, o) == {}
    ensures !steps[i].CloseFd? ==> forall fd :: fd in run[i].fds ==> fd in run[i + 1].fds
  {
    RunInv(run, steps, i);
    assert StepAt(run, steps, i);
    FdsFrame(run[i], steps[i]);
    if steps[i].CloseFd? && run[i].threads[steps[i].t].pc == Closing(o) {
      CloseFacts(run[i], steps[i].t, o);
    }
  }

  /** Inserting into a table never replaces an entry, so no handle is released under the lock. */
  lemma InsertNeverReplaces(run: seq<State>, steps: seq<Step>, i: nat, t: Tid)
    requires IsRun(run, steps) && i < |run| && t in run[i].threads
    ensures var th := run[i].threads[t];
            && (th.pc.Hit? || th.pc.Published? ==>
                  th.pc.obj in run[i].heap && run[i].heap[th.pc.obj].path !in th.files)
            && (th.pc.Adding? ==> th.pc.obj in run[i].heap && run[i].heap[th.pc.obj].path !in run[i].global)
  {
    RunThread(run, steps, i, t);
  }

  /** A thread holds the lock exactly inside the critical sections: after backend_file_get returned
      NULL (Opening), never when it is back outside, and never when it is about to lock. */
  lemma LockDiscipline(run: seq<State>, steps: seq<Step>, i: nat, t: Tid)
    requires IsRun(run, steps) && i < |run| && t in run[i].threads
    ensures run[i].lock == Some(t) <==> Locked(run[i].threads[t].pc)
    ensures run[i].threads[t].pc.Opening? ==> run[i].lock == Some(t)
    ensures run[i].threads[t].pc.Idle? || WantsLock(run[i].threads[t].pc) ==> run[i].lock != Some(t)
  {
    RunThread(run, steps, i, t);
  }

  /** How many more steps of its own a thread can take before it has released the lock. */
  function ToRelease(pc: Pc): nat {
    match pc
    case Looking(_) => 5
    case Opening(_) => 4
    case Adding(_) => 3
    case Published(_) => 2
    case Hit(_) => 2
    case Unreffing(_) => 4
    case Dropping(_) => 3
    case Closing(_) => 2
    case Leaving => 1
    case _ => 0
  }

  /** The number of steps thread `t` takes between states `i` and `j`. */
  function OwnSteps(steps: seq<Step>, t: Tid, i: nat, j: nat): nat
    requires i <= j <= |steps|
  {
    if i == j then 0 else OwnSteps(steps, t, i, j - 1) + (if steps[j - 1].t == t then 1 else 0)
  }

  lemma OwnStep(s: State, step: Step)
    requires Enabled(s, step) && step.t in s.threads && Locked(s.threads[step.t].pc)
    ensures step.t in Apply(s, step).threads
    ensures ToRelease(Apply(s, step).threads[step.t].pc) < ToRelease(s.threads[step.t].pc)
  {}

  lemma ForeignStep(s: State, step: Step, t: Tid)
    requires Enabled(s, step) && t in s.threads && step.t != t
    ensures t in Apply(s, step).threads && Apply(s, step).threads[t] == s.threads[t]
  {}

  lemma StepOfHolder(s: State, step: Step, t: Tid)
    requires Enabled(s, step) && t in s.threads && Locked(s.threads[t].pc)
    ensures t in Apply(s, step).threads
    ensures ToRelease(Apply(s, step).threads[t].pc) + (if step.t == t then 1 else 0) <= ToRelease(s.threads[t].pc)
  {
    if step.t == t { OwnStep(s, step); } else { ForeignStep(s, step, t); }
  }

  lemma HolderFacts(run: seq<State>, steps: seq<Step>, i: nat, t: Tid)
    requires IsRun(run, steps) && i < |run| && run[i].lock == Some(t)
    ensures t in run[i].threads && Locked(run[i].threads[t].pc)
  {
    RunInv(run, steps, i);
  }

  /** On every path the lock is given back after at most five steps of its holder: in between states
      that all have it held, the holder takes at most four. */
  lemma {:induction false} LockIsReleased(run: seq<State>, steps: seq<Step>, i: nat, j: nat, t: Tid)
    requires IsRun(run, steps) && i <= j < |run|
    requires forall k :: i <= k <= j ==> run[k].lock == Some(t)
    ensures t in run[i].threads && t in run[j].threads
    ensures OwnSteps(steps, t, i, j) + ToRelease(run[j].threads[t].pc) <= ToRelease(run[i].threads[t].pc)
    ensures OwnSteps(steps, t, i, j) <= 4
  {
    HolderFacts(run, steps, i, t);
    HolderFacts(run, steps, j, t);
    if i < j {
      LockIsReleased(run, steps, i, j - 1, t);
      HolderAdvances(run, steps, j - 1, t);
    }
  }

  lemma HolderAdvances(run: seq<State>, steps: seq<Step>, i: nat, t: Tid)
    requires IsRun(run, steps) && i < |steps| && run[i].lock == Some(t)
    ensures t in run[i].threads && t in run[i + 1].threads
    ensures ToRelease(run[i + 1].threads[t].pc) + (if steps[i].t == t then 1 else 0) <= ToRelease(run[i].threads[t].pc)
  {
    HolderFacts(run, steps, i, t);
    assert StepAt(run, steps, i);
    StepOfHolder(run[i], steps[i], t);
  }

  predicate AtRest(th: Thread) { th.pc.Exited? || (th.pc.Idle? && !th.exiting) }

  lemma HolderCanStep(s: State, t: Tid) returns (step: Step)
    requires Inv(s) && t in s.threads && Locked(s.threads[t].pc)
    ensures Enabled(s, step) && step.t == t
  {
    ThreadFacts(s, t);
    match s.threads[t].pc
    case Looking(p) => step := if p in s.global then LookupHit(t) else LookupMiss(t);
    case Hit(_) => step := InsertOwn(t);
    case Opening(_) => step := OpenFails(t);
    case Adding(_) => step := Publish(t);
    case Published(_) => step := InsertOwn(t);
    case Leaving => step := Unlock(t);
    case Unreffing(o) => UnreffingFacts(s, t, o); step := Decrement(t);
    case Dropping(_) => step := DropGlobal(t);
    case Closing(_) => step := CloseFd(t);
  }

  /** No deadlock: while some thread is inside the backend or being torn down, such a thread can move. */
  lemma NoDeadlock(run: seq<State>, steps: seq<Step>, i: nat, t: Tid) returns (step: Step)
    requires IsRun(run, steps) && i < |run| && t in run[i].threads && !AtRest(run[i].threads[t])
    ensures Enabled(run[i], step) && !step.Spawn? && !AtRest(run[i].threads[step.t])
  {
    var s := run[i];
    RunInv(run, steps, i);
    ThreadFacts(s, t);
    var th := s.threads[t];
    if WantsLock(th.pc) && s.lock.None? {
      step := Lock(t);
    } else if th.pc.Idle? {
      if th.files == map[] {
        step := Gone(t);
      } else {
        var p :| p in th.files;
        step := Release(t, p);
      }
    } else {
      step := HolderCanStep(s, if Locked(th.pc) then t else s.lock.value);
    }
  }

  predicate EmptyHanded(th: Thread) { th.files == map[] && !th.pc.UnrefWait? }

  lemma LiveIsShared(s: State, o: Obj)
    requires Inv(s) && s.lock.None? && o in s.heap
    ensures Shared(s.global, s.heap, o) && s.heap[o].refCount > 0
  {
    assert ObjOk(s.global, s.heap, Idle, o, |Holders(s.threads, s.heap[o].path, o)|);
  }

  lemma EmptyTablesEmptyHeap(s: State)
    requires Inv(s) && s.lock.None? && s.global == map[]
    ensures s.heap == map[] && s.fds == map[] && s.opens == s.closes
  {
    if o :| o in s.heap { LiveIsShared(s, o); }
  }

  lemma NothingShared(g: Table, h: Heap, th: Thread)
    requires ThreadOk(g, h, th) && g == map[]
    ensures EmptyHanded(th)
  {}

  /** The assertion of backend_fini: with nobody in the critical section, the global table is empty
      exactly when no thread has a handle in its table or one to unref; and then no handle is live and
      every descriptor that was opened has been closed. */
  lemma ShutdownAssertion(run: seq<State>, steps: seq<Step>, i: nat)
    requires IsRun(run, steps) && i < |run| && run[i].lock.None?
    ensures run[i].global == map[] <==> forall t :: t in run[i].threads ==> EmptyHanded(run[i].threads[t])
    ensures run[i].global == map[] ==>
              run[i].heap == map[] && run[i].fds == map[] && run[i].opens == run[i].closes
  {
    var s := run[i];
    RunInv(run, steps, i);
    if s.global == map[] {
      EmptyTablesEmptyHeap(s);
      forall t | t in s.threads ensures EmptyHanded(s.threads[t]) {
        ThreadFacts(s, t);
        NothingShared(s.global, s.heap, s.threads[t]);
      }
    } else {
      var p :| p in s.global;
      SharedHasHolder(s, s.global[p]);
    }
  }

  /** With the lock free, every live handle is referred to by some thread. */
  lemma SharedHasHolder(s: State, o: Obj)
    requires Inv(s) && s.lock.None? && o in s.heap
    ensures exists t :: t in s.threads && !EmptyHanded(s.threads[t])
  {
    LiveIsShared(s, o);
    assert Holders(s.threads, s.heap[o].path, o) != {};
    var t :| t in Holders(s.threads, s.heap[o].path, o);
    ThreadFacts(s, t);
  }

  // ----- What a call delivers -----

  /** The steps that thread `t` takes between states `i` and `j`. */
  function OwnTrace(steps: seq<Step>, t: Tid, i: nat, j: nat): seq<Step>
    requires i <= j <= |steps|
  {
    if i == j then [] else OwnTrace(steps, t, i, j - 1) + if steps[j - 1].t == t then [steps[j - 1]] else []
  }

  function OpenTrace(t: Tid, p: Path, o: Obj, fd: Fd): seq<Step> {
    [GetMiss(t, p), Lock(t), LookupMiss(t), OpenSucceeds(t, o, fd), Publish(t), InsertOwn(t), Unlock(t)]
  }

  /** What create or open of `p` has done when it is complete. */
  predicate Acquired(tr: seq<Step>, t: Tid, p: Path, before: Table, after: Table) {
    || (p in after && after == before[p := after[p]] &&
        (|| tr == [GetMiss(t, p), Lock(t), LookupHit(t), InsertOwn(t), Unlock(t)]
         || (|tr| == 7 && tr[3].OpenSucceeds? && tr == OpenTrace(t, p, after[p], tr[3].fd))))
    || (after == before && tr == [GetMiss(t, p), Lock(t), LookupMiss(t), OpenFails(t), Unlock(t)])
  }

  /** What close or delete of `p` has done when it is complete. */
  predicate Released(tr: seq<Step>, t: Tid, p: Path, before: Table, after: Table) {
    && p in before && after == before - {p}
    && (|| tr == [Release(t, p), Lock(t), Decrement(t), Unlock(t)]
        || tr == [Release(t, p), Lock(t), Decrement(t), DropGlobal(t), CloseFd(t), Unlock(t)])
  }

  predicate Complete(tr: seq<Step>, t: Tid, p: Path, before: Table, after: Table) {
    Acquired(tr, t, p, before, after) || Released(tr, t, p, before, after)
  }

  /** What an unfinished call has done so far. */
  predicate Underway(tr: seq<Step>, t: Tid, p: Path, before: Table, th: Thread, h: Heap) {
    match th.pc
    case GetWait(q) => q == p && th.files == before && tr == [GetMiss(t, p)]
    case Looking(q) => q == p && th.files == before && tr == [GetMiss(t, p), Lock(t)]
    case Hit(o) => o in h && h[o].path == p && th.files == before && tr == [GetMiss(t, p), Lock(t), LookupHit(t)]
    case Opening(q) => q == p && th.files == before && tr == [GetMiss(t, p), Lock(t), LookupMiss(t)]
    case Adding(o) =>
      o in h && h[o].path == p && th.files == before &&
      tr == [GetMiss(t, p), Lock(t), LookupMiss(t), OpenSucceeds(t, o, h[o].fd)]
    case Published(o) =>
      o in h && h[o].path == p && th.files == before &&
      tr == [GetMiss(t, p), Lock(t), LookupMiss(t), OpenSucceeds(t, o, h[o].fd), Publish(t)]
    case UnrefWait(o) => p in before && o == before[p] && th.files == before - {p} && tr == [Release(t, p)]
    case Unreffing(o) => p in before && o == before[p] && th.files == before - {p} && tr == [Release(t, p), Lock(t)]
    case Dropping(o) => p in before && o == before[p] && th.files == before - {p} && tr == [Release(t, p), Lock(t), Decrement(t)]
    case Closing(o) =>
      p in before && o == before[p] && th.files == before - {p} &&
      tr == [Release(t, p), Lock(t), Decrement(t), DropGlobal(t)]
    case Leaving => Complete(tr + [Unlock(t)], t, p, before, th.files)
    case _ => false
  }

  predicate IsCall(step: Step, t: Tid, p: Path) { step == GetMiss(t, p) || step == Release(t, p) }

  /** The first step of a call. */
  lemma CallBegins(s: State, step: Step, t: Tid, p: Path)
    requires Enabled(s, step) && IsCall(step, t, p)
    ensures t in s.threads && t in Apply(s, step).threads
    ensures Underway([step], t, p, s.threads[t].files, Apply(s, step).threads[t], Apply(s, step).heap)
  {}

  /** A step of a call that creates or opens, up to the open itself. */
  lemma CallLooks(s: State, step: Step, t: Tid, p: Path, before: Table, tr: seq<Step>)
    requires Inv(s) && Enabled(s, step) && step.t == t && t in s.threads
    requires Underway(tr, t, p, before, s.threads[t], s.heap)
    requires var pc := s.threads[t].pc; pc.GetWait? || pc.Looking? || pc.Opening?
    ensures t in Apply(s, step).threads
    ensures Underway(tr + [step], t, p, before, Apply(s, step).threads[t], Apply(s, step).heap)
  {
    if s.threads[t].pc.Looking? && p in s.global { GlobalFacts(s.global, s.heap, p); }
    assert step.OpenFails? ==> Acquired(tr + [step] + [Unlock(t)], t, p, before, before);
  }

  /** A step that puts the handle into the tables. */
  lemma CallInserts(s: State, step: Step, t: Tid, p: Path, before: Table, tr: seq<Step>)
    requires Inv(s) && Enabled(s, step) && step.t == t && t in s.threads
    requires Underway(tr, t, p, before, s.threads[t], s.heap)
    requires var pc := s.threads[t].pc; pc.Hit? || pc.Adding? || pc.Published?
    ensures t in Apply(s, step).threads
    ensures Underway(tr + [step], t, p, before, Apply(s, step).threads[t], Apply(s, step).heap)
  {
    var th' := Apply(s, step).threads[t];
    if step.InsertOwn? {
      var o := s.threads[t].pc.obj;
      assert th'.files == before[p := o];
      assert s.threads[t].pc.Published? ==>
        tr + [step] + [Unlock(t)] == OpenTrace(t, p, o, s.heap[o].fd);
      assert Acquired(tr + [step] + [Unlock(t)], t, p, before, th'.files);
    }
  }

  /** A step of a call that closes or deletes. */
  lemma CallReleases(s: State, step: Step, t: Tid, p: Path, before: Table, tr: seq<Step>)
    requires Inv(s) && Enabled(s, step) && step.t == t && t in s.threads
    requires Underway(tr, t, p, before, s.threads[t], s.heap)
    requires var pc := s.threads[t].pc; pc.UnrefWait? || pc.Unreffing? || pc.Dropping? || pc.Closing?
    ensures t in Apply(s, step).threads
    ensures Underway(tr + [step], t, p, before, Apply(s, step).threads[t], Apply(s, step).heap)
  {
    if s.threads[t].pc.Unreffing? { CallDecrements(s, step, t, p, before, tr); }
    assert step.CloseFd? ==> Released(tr + [step] + [Unlock(t)], t, p, before, s.threads[t].files);
  }

  lemma CallDecrements(s: State, step: Step, t: Tid, p: Path, before: Table, tr: seq<Step>)
    requires Enabled(s, step) && step.t == t && t in s.threads && s.threads[t].pc.Unreffing?
    requires Underway(tr, t, p, before, s.threads[t], s.heap)
    ensures t in Apply(s, step).threads
    ensures Underway(tr + [step], t, p, before, Apply(s, step).threads[t], Apply(s, step).heap)
  {
    assert Released(tr + [step] + [Unlock(t)], t, p, before, s.threads[t].files);
  }

  lemma CallEnds(s: State, step: Step, t: Tid, p: Path, before: Table, tr: seq<Step>)
    requires Enabled(s, step) && step.t == t && t in s.threads && s.threads[t].pc.Leaving?
    requires Underway(tr, t, p, before, s.threads[t], s.heap)
    ensures t in Apply(s, step).threads && Apply(s, step).threads[t].pc.Idle?
    ensures Complete(tr + [step], t, p, before, Apply(s, step).threads[t].files)
  {}

  /** While a thread holds the lock, nobody else touches the handles. */
  lemma ForeignHeap(s: State, step: Step, t: Tid)
    requires LockOk(s.threads, s.lock) && Enabled(s, step) && t in s.threads && Locked(s.threads[t].pc) && step.t != t
    ensures Apply(s, step).heap == s.heap
  {
    if step.t in s.threads { assert !Locked(s.threads[step.t].pc); }
  }

  lemma CallWaits(s: State, step: Step, t: Tid, p: Path, before: Table, tr: seq<Step>)
    requires Inv(s) && Enabled(s, step) && t in s.threads && step.t != t
    requires Underway(tr, t, p, before, s.threads[t], s.heap)
    ensures t in Apply(s, step).threads
    ensures Underway(tr, t, p, before, Apply(s, step).threads[t], Apply(s, step).heap)
  {
    ForeignStep(s, step, t);
    if Locked(s.threads[t].pc) { ForeignHeap(s, step, t); }
  }

  /** What one step makes of an unfinished call. */
  lemma CallStep(s: State, step: Step, t: Tid, p: Path, before: Table, tr: seq<Step>)
    requires Inv(s) && Enabled(s, step) && t in s.threads && Underway(tr, t, p, before, s.threads[t], s.heap)
    ensures t in Apply(s, step).threads
    ensures var tr', th' := tr + (if step.t == t then [step] else []), Apply(s, step).threads[t];
            if th'.pc.Idle? then Complete(tr', t, p, before, th'.files)
            else Underway(tr', t, p, before, th', Apply(s, step).heap)
  {
    if step.t != t {
      CallWaits(s, step, t, p, before, tr);
      assert tr + [] == tr;
    } else {
      match s.threads[t].pc
      case Leaving => CallEnds(s, step, t, p, before, tr);
      case GetWait(_) => CallLooks(s, step, t, p, before, tr);
      case Looking(_) => CallLooks(s, step, t, p, before, tr);
      case Opening(_) => CallLooks(s, step, t, p, before, tr);
      case Hit(_) => CallInserts(s, step, t, p, before, tr);
      case Adding(_) => CallInserts(s, step, t, p, before, tr);
      case Published(_) => CallInserts(s, step, t, p, before, tr);
      case _ => CallReleases(s, step, t, p, before, tr);
    }
  }

  /** Thread `t` begins a call on `p` at state `i`, and is not back before state `j`. */
  ghost predicate InCall(run: seq<State>, steps: seq<Step>, t: Tid, p: Path, i: nat, j: nat)
    requires IsRun(run, steps)
  {
    && i < j < |run| && IsCall(steps[i], t, p)
    && forall k :: i < k < j ==> t in run[k].threads && !run[k].threads[t].pc.Idle?
  }

  /** What thread `t` has done at state `j` of the call that it began at state `i`. */
  ghost predicate Shaped(run: seq<State>, steps: seq<Step>, t: Tid, p: Path, i: nat, j: nat)
    requires i <= j < |run| == |steps| + 1
  {
    && t in run[i].threads && t in run[j].threads
    && var before, tr, th := run[i].threads[t].files, OwnTrace(steps, t, i, j), run[j].threads[t];
       if th.pc.Idle? then Complete(tr, t, p, before, th.files) else Underway(tr, t, p, before, th, run[j].heap)
  }

  /** Every call takes exactly the steps of the code, in their order, and when it is back, the table of the thread is
      what it was, with or without `p`. */
  lemma {:induction false} CallShape(run: seq<State>, steps: seq<Step>, t: Tid, p: Path, i: nat, j: nat)
    requires IsRun(run, steps) && InCall(run, steps, t, p, i, j)
    ensures Shaped(run, steps, t, p, i, j)
  {
    if j == i + 1 {
      CallStarts(run, steps, t, p, i, j);
    } else {
      CallShape(run, steps, t, p, i, j - 1);
      CallGoesOn(run, steps, t, p, i, j - 1, j);
    }
  }

  lemma CallStarts(run: seq<State>, steps: seq<Step>, t: Tid, p: Path, i: nat, j: nat)
    requires IsRun(run, steps) && j == i + 1 < |run| && IsCall(steps[i], t, p)
    ensures Shaped(run, steps, t, p, i, j)
  {
    assert StepAt(run, steps, i);
    CallBegins(run[i], steps[i], t, p);
    assert OwnTrace(steps, t, i, j) == OwnTrace(steps, t, i, i) + [steps[i]] == [steps[i]];
  }

  lemma CallGoesOn(run: seq<State>, steps: seq<Step>, t: Tid, p: Path, i: nat, k: nat, j: nat)
    requires IsRun(run, steps) && i < k && j == k + 1 < |run| && Shaped(run, steps, t, p, i, k)
    requires !run[k].threads[t].pc.Idle?
    ensures Shaped(run, steps, t, p, i, j)
  {
    RunInv(run, steps, k);
    assert StepAt(run, steps, k);
    CallStep(run[k], steps[k], t, p, run[i].threads[t].files, OwnTrace(steps, t, i, k));
  }

  /** Create and open: the thread comes back with the handle of `p` in its table, the one in the global table, with
      that path and with an open descriptor, and the rest of its table as it was, unless the file could not be
      opened: then its table is as it was. The file is opened, once, if and only if the handle was not in the
      global table. */
  lemma {:induction false} OpenDelivers(run: seq<State>, steps: seq<Step>, t: Tid, p: Path, i: nat, j: nat)
    requires IsRun(run, steps) && InCall(run, steps, t, p, i, j) && steps[i] == GetMiss(t, p)
    requires t in run[j].threads && run[j].threads[t].pc.Idle?
    ensures t in run[i].threads
    ensures var tr, before, after := OwnTrace(steps, t, i, j), run[i].threads[t].files, run[j].threads[t].files;
            && Acquired(tr, t, p, before, after)
            && (OpenFails(t) !in tr ==>
                  && p in after && after == before[p := after[p]]
                  && p in run[j].global && run[j].global[p] == after[p]
                  && after[p] in run[j].heap && run[j].heap[after[p]].path == p && run[j].heap[after[p]].fd in run[j].fds)
            && (OpenFails(t) in tr ==> after == before)
  {
    CallShape(run, steps, t, p, i, j);
    RunInv(run, steps, j);
    RunThread(run, steps, j, t);
    var tr, before := OwnTrace(steps, t, i, j), run[i].threads[t].files;
    FirstOfTrace(run, steps, t, i, j);
  }

  lemma {:induction false} FirstOfTrace(run: seq<State>, steps: seq<Step>, t: Tid, i: nat, j: nat)
    requires i < j <= |steps| && steps[i].t == t
    ensures OwnTrace(steps, t, i, j) != [] && OwnTrace(steps, t, i, j)[0] == steps[i]
  {
    if j > i + 1 { FirstOfTrace(run, steps, t, i, j - 1); } else { assert OwnTrace(steps, t, i, i) == []; }
  }

  /** Close and delete: the thread comes back without the handle of `p` in its table and with the rest as it was; the
      count of the handle has been decremented once, and the handle destroyed if that was its last reference. */
  lemma {:induction false} CloseDelivers(run: seq<State>, steps: seq<Step>, t: Tid, p: Path, i: nat, j: nat)
    requires IsRun(run, steps) && InCall(run, steps, t, p, i, j) && steps[i] == Release(t, p)
    requires t in run[j].threads && run[j].threads[t].pc.Idle?
    ensures t in run[i].threads
    ensures Released(OwnTrace(steps, t, i, j), t, p, run[i].threads[t].files, run[j].threads[t].files)
  {
    CallShape(run, steps, t, p, i, j);
    FirstOfTrace(run, steps, t, i, j);
  }

  /** What the lookup does is decided by the global table, and what the decrement does by the count. */
  lemma LookupAndCount(run: seq<State>, steps: seq<Step>, i: nat)
    requires IsRun(run, steps) && i < |steps|
    ensures steps[i].LookupHit? ==>
              var t := steps[i].t;
              && t in run[i].threads && run[i].threads[t].pc.Looking? && run[i].threads[t].pc.path in run[i].global
              && t in run[i + 1].threads && run[i + 1].threads[t].pc == Hit(run[i].global[run[i].threads[t].pc.path])
    ensures steps[i].LookupMiss? ==>
              var t := steps[i].t;
              t in run[i].threads && run[i].threads[t].pc.Looking? && run[i].threads[t].pc.path !in run[i].global
    ensures steps[i].Decrement? ==>
              var t := steps[i].t;
              && t in run[i].threads && run[i].threads[t].pc.Unreffing? && run[i].threads[t].pc.obj in run[i].heap
              && run[i].heap[run[i].threads[t].pc.obj].refCount > 0
              && run[i + 1].heap == Recount(run[i].heap, run[i].threads[t].pc.obj, run[i].heap[run[i].threads[t].pc.obj].refCount - 1)
              && t in run[i + 1].threads
              && (run[i + 1].threads[t].pc.Dropping? <==> run[i].heap[run[i].threads[t].pc.obj].refCount == 1)
    ensures steps[i].GetOwn? ==> run[i + 1] == run[i] && steps[i].t in run[i].threads && steps[i].path in run[i].threads[steps[i].t].files
  {
    assert StepAt(run, steps, i);
  }

  // ----- A thread that exits -----

  function PcRank(pc: Pc): nat {
    match pc
    case Exited => 0
    case Idle => 1
    case Leaving => 2
    case Closing(_) => 3
    case Dropping(_) => 4
    case Unreffing(_) => 5
    case _ => 6
  }

  /** How many more steps of its own the teardown of a thread can take. */
  function TeardownRank(th: Thread): nat { 7 * |th.files| + PcRank(th.pc) }

  /** An exiting thread that does not release a handle keeps its table and gets nearer to the end. */
  lemma TeardownMove(s: State, step: Step, t: Tid)
    requires Enabled(s, step) && t in s.threads && s.threads[t].exiting && step.t == t && !step.Release?
    requires var pc := s.threads[t].pc; pc.Idle? || pc.UnrefWait? || pc.Unreffing? || pc.Dropping? || pc.Closing? || pc.Leaving?
    ensures t in Apply(s, step).threads
    ensures var th' := Apply(s, step).threads[t];
            th'.exiting && th'.files == s.threads[t].files && PcRank(th'.pc) < PcRank(s.threads[t].pc)
  {}

  lemma TeardownStep(s: State, step: Step, t: Tid)
    requires Enabled(s, step) && t in s.threads && s.threads[t].exiting && step.t == t
    requires ThreadOk(s.global, s.heap, s.threads[t])
    ensures t in Apply(s, step).threads && Apply(s, step).threads[t].exiting
    ensures Apply(s, step).threads[t].files.Keys <= s.threads[t].files.Keys
    ensures TeardownRank(Apply(s, step).threads[t]) < TeardownRank(s.threads[t])
  {
    if step.Release? {
      OneFileLess(s.threads[t].files, step.path);
    } else {
      NotOpening(s.global, s.heap, s.threads[t]);
      TeardownMove(s, step, t);
    }
  }

  lemma OneFileLess(files: Table, p: Path)
    requires p in files
    ensures |files| == |files - {p}| + 1 && (files - {p}).Keys <= files.Keys
  {
    assert files.Keys == (files - {p}).Keys + {p};
  }

  lemma NotOpening(g: Table, h: Heap, th: Thread)
    requires ThreadOk(g, h, th) && th.exiting
    ensures var pc := th.pc; !pc.GetWait? && !pc.Looking? && !pc.Hit? && !pc.Opening? && !pc.Adding? && !pc.Published?
  {}

  lemma TeardownAdvances(run: seq<State>, steps: seq<Step>, t: Tid, k: nat, j: nat)
    requires IsRun(run, steps) && j == k + 1 < |run| && t in run[k].threads && run[k].threads[t].exiting
    ensures t in run[j].threads && run[j].threads[t].exiting && run[j].threads[t].files.Keys <= run[k].threads[t].files.Keys
    ensures TeardownRank(run[j].threads[t]) + (if steps[k].t == t then 1 else 0) <= TeardownRank(run[k].threads[t])
  {
    RunThread(run, steps, k, t);
    assert StepAt(run, steps, k);
    if steps[k].t == t { TeardownStep(run[k], steps[k], t); } else { ForeignStep(run[k], steps[k], t); }
  }

  /** A thread that has exited opens nothing any more: its table only shrinks, and after at most seven steps per
      handle, and one, it is gone, with an empty table. */
  lemma {:induction false} TeardownEnds(run: seq<State>, steps: seq<Step>, t: Tid, i: nat, j: nat)
    requires IsRun(run, steps) && i < j < |run| && steps[i] == Exit(t)
    ensures t in run[i].threads && t in run[j].threads && run[j].threads[t].exiting
    ensures run[j].threads[t].files.Keys <= run[i].threads[t].files.Keys
    ensures OwnSteps(steps, t, i + 1, j) + TeardownRank(run[j].threads[t]) <= 7 * |run[i].threads[t].files| + 1
    ensures run[j].threads[t].pc.Exited? ==> run[j].threads[t].files == map[]
  {
    assert StepAt(run, steps, i);
    if j > i + 1 {
      TeardownEnds(run, steps, t, i, j - 1);
      TeardownAdvances(run, steps, t, j - 1, j);
    }
    RunThread(run, steps, j, t);
  }

  // ----- Nobody is refused -----

  /** A thread outside the backend can get any path and release any handle it has, and an open can end either way. */
  lemma NobodyIsRefused(s: State, t: Tid, p: Path, o: Obj, fd: Fd)
    requires t in s.threads && o !in s.heap && fd !in s.fds
    ensures var th := s.threads[t];
            && (th.pc.Idle? && !th.exiting ==> Enabled(s, if p in th.files then GetOwn(t, p) else GetMiss(t, p)) && Enabled(s, Exit(t)))
            && (th.pc.Idle? && p in th.files ==> Enabled(s, Release(t, p)))
            && (th.pc.Opening? ==> Enabled(s, OpenFails(t)) && Enabled(s, OpenSucceeds(t, o, fd)))
  {}
}
