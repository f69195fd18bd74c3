/**
 The cache that grants buffers to batches (lib/core/jcache.c): a budget of `size` bytes, what is used of it, and
 the buffers that are out. The counters are unsigned 64-bit integers. g_malloc delivers an address that is not in
 use, and NULL for a buffer of no bytes; it stops the program for more bytes than any object can have.

 `locked` is the mutex after a call has returned; `stopped` says that the program has been stopped.
 */
module Cache {
  import opened Basics

  const NULL: nat := 0

  /** The largest object: half of the address space (PTRDIFF_MAX). */
  const LARGEST: nat := 0x7fff_ffff_ffff_ffff

  datatype State = State(size: nat, used: nat, buffers: map<nat, nat>, locked: bool, stopped: bool)

  datatype Op = Get(length: nat, address: nat) | Release(address: nat)

  /** What is out. */
  ghost function Sum(m: map<nat, nat>): nat {
    if m == map[] then 0
    else
      var k :| k in m;
      m[k] + Sum(m - {k})
  }

  lemma {:induction false} SumRemove(m: map<nat, nat>, k: nat)
    requires k in m
    ensures Sum(m) == m[k] + Sum(m - {k})
  {
    var j :| j in m && Sum(m) == m[j] + Sum(m - {j});
    if j != k {
      SumRemove(m - {j}, k);
      SumRemove(m - {k}, j);
      assert m - {j} - {k} == m - {k} - {j};
    }
  }

  lemma SumInsert(m: map<nat, nat>, k: nat, v: nat)
    requires k !in m || m[k] == v == 0
    ensures Sum(m[k := v]) == Sum(m) + v
  {
    SumRemove(m[k := v], k);
    if k in m {
      assert m[k := v] == m;
    } else {
      assert m[k := v] - {k} == m;
    }
  }

  // ----- The operations -----

  /** What the 64-bit addition of the check yields. */
  function Wrapped(n: int): (r: nat)
    ensures r < TWO_64
  { n % TWO_64 }

  function Granted(s: State, length: nat): bool { Wrapped(s.used + length) <= s.size }

  function Apply(s: State, op: Op): State {
    match op
    case Get(length, address) =>
      if !Granted(s, length) then s
      else if length > LARGEST then s.(locked := true, stopped := true)
      else
        s.(used := Wrapped(s.used + length), buffers := s.buffers[address := length])
    case Release(address) =>
      if address == NULL then s
      else if address !in s.buffers || s.buffers[address] == 0 then s.(locked := true)
      else s.(used := Wrapped(s.used - s.buffers[address]), buffers := s.buffers - {address})
  }

  /** What g_malloc does; a call that finds the mutex locked does not come back. */
  predicate Possible(s: State, op: Op) {
    && !s.locked && !s.stopped
    && match op
       case Get(length, address) =>
         length < TWO_64 && (address == NULL <==> length == 0) && (address != NULL ==> address !in s.buffers)
       case Release(_) => true
  }

  class Cache {
    const size: nat
    var used: nat
    var buffers: map<nat, nat>
    var locked: bool
    var stopped: bool

    ghost function Value(): State
      reads this
    { State(size, used, buffers, locked, stopped) }

    constructor (size: nat)
      requires 0 < size < TWO_64
      ensures Value() == State(size, 0, map[], false, false)
    { this.size, used, buffers, locked, stopped := size, 0, map[], false, false; }

    method Get(length: nat, address: nat) returns (buffer: nat)
      requires Possible(Value(), Op.Get(length, address))
      modifies this
      ensures Value() == Apply(old(Value()), Op.Get(length, address))
      ensures !stopped ==> buffer == if Granted(old(Value()), length) then address else NULL
    {
      buffer := NULL;
      locked := true;
      if !((used + length) % TWO_64 > size) {
        if length > LARGEST {
          stopped := true;
          return;
        }
        buffer := address;
        used := (used + length) % TWO_64;
        buffers := buffers[buffer := length];
      }
      locked := false;
    }

    method Release(data: nat)
      requires Possible(Value(), Op.Release(data))
      modifies this
      ensures Value() == Apply(old(Value()), Op.Release(data))
    {
      if data == NULL { return; }
      locked := true;
      if data !in buffers || buffers[data] == 0 { return; }
      var length := buffers[data];
      buffers := buffers - {data};
      used := (used - length) % TWO_64;
      locked := false;
    }
  }

  // ----- Runs -----

  /** As long as the check does not overflow: a request is granted if and only if it fits into the rest of the budget;
      then its bytes are counted and its buffer recorded, and otherwise nothing happens. */
  lemma GetGrantsWhatFits(s: State, length: nat, address: nat)
    requires s.size <= LARGEST && s.used + length < TWO_64
    ensures var s' := Apply(s, Get(length, address));
            if length <= s.size - s.used
            then s' == State(s.size, s.used + length, s.buffers[address := length], s.locked, s.stopped)
            else s' == s
  {
    assert Wrapped(s.used + length) == s.used + length;
  }

  /** Releasing a buffer that is out gives back exactly its bytes. */
  lemma ReleaseGivesBack(s: State, address: nat)
    requires Inv(s) && Balanced(s) && address in s.buffers && address != NULL
    ensures s.buffers[address] <= s.used
    ensures Apply(s, Release(address)) == State(s.size, s.used - s.buffers[address], s.buffers - {address}, s.locked, s.stopped)
  {
    SumRemove(s.buffers, address);
  }

  /** All buffers that are out are non-empty, and the NULL buffer is empty; the counter agrees with them modulo 2^64. */
  ghost predicate Inv(s: State) {
    && 0 < s.size < TWO_64
    && (forall a <- s.buffers :: s.buffers[a] == 0 <==> a == NULL)
    && s.used == Wrapped(Sum(s.buffers))
  }

  /** The check does not overflow. */
  predicate Fits(s: State, op: Op) { op.Get? ==> s.used + op.length < TWO_64 }

  /** The counter is what is out, and within the budget. */
  ghost predicate Balanced(s: State) { s.used == Sum(s.buffers) && s.used <= s.size }

  lemma WrappedAdd(a: nat, b: nat)
    ensures Wrapped(Wrapped(a) + b) == Wrapped(a + b)
  {
    Residue(Wrapped(a) + b, a + b, a / TWO_64);
  }

  lemma WrappedSub(a: nat, b: nat)
    requires b <= a
    ensures Wrapped(Wrapped(a) - b) == Wrapped(a - b)
  {
    Residue(Wrapped(a) - b, a - b, a / TWO_64);
  }

  lemma Residue(x: int, y: int, q: int)
    requires y == x + q * TWO_64
    ensures Wrapped(x) == Wrapped(y)
  {
    var d := y / TWO_64 - x / TWO_64 - q;
    assert Wrapped(x) - Wrapped(y) == TWO_64 * d;
    assert d == 0;
  }

  lemma StepKeeps(s: State, op: Op)
    requires Inv(s) && Possible(s, op)
    ensures Inv(Apply(s, op))
  {
    if op.Get? && Granted(s, op.length) && op.length <= LARGEST {
      SumInsert(s.buffers, op.address, op.length);
      WrappedAdd(Sum(s.buffers), op.length);
    } else if op.Release? && op.address in s.buffers {
      SumRemove(s.buffers, op.address);
      WrappedSub(Sum(s.buffers), s.buffers[op.address]);
    }
  }

  lemma Small(n: nat)
    ensures Wrapped(n) == n <==> n < TWO_64
  {}

  /** The check of the request overflows, passes for that reason, and the buffer is delivered. */
  predicate Slips(s: State, op: Op) { !Fits(s, op) && Granted(s, op.length) && op.length <= LARGEST }

  /** Exactly the requests that slip through put the books out of balance. */
  lemma {:induction false} BalancedIffNotSlips(s: State, op: Op)
    requires Inv(s) && Balanced(s) && Possible(s, op)
    ensures Balanced(Apply(s, op)) <==> !Slips(s, op)
  {
    StepKeeps(s, op);
    if op.Get? {
      SumInsert(s.buffers, op.address, op.length);
      Small(s.used + op.length);
    } else if op.address in s.buffers {
      SumRemove(s.buffers, op.address);
      Small(Sum(s.buffers - {op.address}));
    }
  }

  /** With a budget of at most half of the address space nothing slips through: a request whose check overflows
      asks for more than g_malloc can deliver, so if it passes the check, the program is stopped. */
  lemma OverflowStops(s: State, op: Op)
    requires Inv(s) && s.used <= s.size <= LARGEST + 1 && Possible(s, op) && !Fits(s, op)
    ensures !Slips(s, op) && (Granted(s, op.length) <==> Apply(s, op).stopped)
  {}

  ghost predicate IsRun(size: nat, states: seq<State>, ops: seq<Op>) {
    && 0 < size < TWO_64
    && |states| == |ops| + 1
    && states[0] == State(size, 0, map[], false, false)
    && forall i {:trigger ops[i]} :: 0 <= i < |ops| ==>
         Possible(states[i], ops[i]) && states[i + 1] == Apply(states[i], ops[i])
  }

  lemma {:induction false} RunInv(size: nat, states: seq<State>, ops: seq<Op>, n: nat)
    requires IsRun(size, states, ops) && n < |states|
    ensures Inv(states[n]) && states[n].size == size
  {
    if n > 0 {
      RunInv(size, states, ops, n - 1);
      StepKeeps(states[n - 1], ops[n - 1]);
    }
  }

  /** With the budget of the operation cache: after a buffer of one byte, a request for 2^64 - 1 bytes passes the
      check, and the allocation stops the program. */
  lemma OverflowPasses() returns (states: seq<State>, ops: seq<Op>)
    ensures IsRun(50 * 1024 * 1024, states, ops) && ops == [Get(1, 1), Get(TWO_64 - 1, 2)]
    ensures Granted(states[1], TWO_64 - 1) && states[2].stopped
  {
    ops := [Get(1, 1), Get(TWO_64 - 1, 2)];
    var s0 := State(50 * 1024 * 1024, 0, map[], false, false);
    var s1 := Apply(s0, ops[0]);
    assert Wrapped(TWO_64) == 0;
    states := [s0, s1, Apply(s1, ops[1])];
  }

  /** The books balance throughout every run, whatever is asked for, with a budget of at most half of the address
      space. */
  lemma {:induction false} RunBalanced(size: nat, states: seq<State>, ops: seq<Op>, n: nat)
    requires IsRun(size, states, ops) && n < |states| && size <= LARGEST + 1
    ensures Balanced(states[n])
  {
    if n > 0 {
      RunInv(size, states, ops, n - 1);
      RunBalanced(size, states, ops, n - 1);
      if !Fits(states[n - 1], ops[n - 1]) { OverflowStops(states[n - 1], ops[n - 1]); }
      BalancedIffNotSlips(states[n - 1], ops[n - 1]);
    }
  }

  ghost predicate BalancedUpTo(states: seq<State>, n: nat)
    requires n < |states|
  { Balanced(states[n]) && (n > 0 ==> BalancedUpTo(states, n - 1)) }

  predicate NoneSlips(states: seq<State>, ops: seq<Op>, n: nat)
    requires n <= |ops| <= |states|
  { n > 0 ==> !Slips(states[n - 1], ops[n - 1]) && NoneSlips(states, ops, n - 1) }

  /** With any budget, the books balance up to some point of a run if and only if no request has slipped through
      by then. */
  lemma {:induction false} OutOfBalanceOnlyByOverflow(size: nat, states: seq<State>, ops: seq<Op>, n: nat)
    requires IsRun(size, states, ops) && n < |states|
    ensures BalancedUpTo(states, n) <==> NoneSlips(states, ops, n)
  {
    if n > 0 {
      OutOfBalanceOnlyByOverflow(size, states, ops, n - 1);
      RunInv(size, states, ops, n - 1);
      if Balanced(states[n - 1]) { BalancedIffNotSlips(states[n - 1], ops[n - 1]); }
    }
  }

  /** A release leaves the mutex locked if and only if it is given an address that is not out. */
  lemma {:induction false} LockedIffUnknown(size: nat, states: seq<State>, ops: seq<Op>, n: nat)
    requires IsRun(size, states, ops) && n < |ops|
    ensures states[n + 1].locked && !states[n + 1].stopped <==>
              ops[n].Release? && ops[n].address != NULL && ops[n].address !in states[n].buffers
    ensures states[n + 1].locked ==> n + 1 == |ops|
  {
    RunInv(size, states, ops, n);
    assert Possible(states[n], ops[n]);
    if n + 1 < |ops| { assert Possible(states[n + 1], ops[n + 1]); }
  }

  /** A request for no bytes is granted and looks refused. */
  lemma EmptyLooksRefused(s: State, op: Op)
    requires Inv(s) && s.used <= s.size && Possible(s, op) && op.Get? && op.length == 0
    ensures Granted(s, 0) && op.address == NULL && Apply(s, op).used == s.used
  {
    Small(s.used);
  }
}
