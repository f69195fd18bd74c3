/**
 Executing a batch (j_batch_execute_internal and j_batch_execute_same, lib/core/jbatch.c): runs of
 operations with the same function and key are combined and handed to the function together.

 Functions, keys and data are opaque values; `exec` says what a function does to the world `W` when it
 is given a list. A NULL function or NULL data is `None`, and is treated as the code treats it.
 */
module BatchExecution {
  import opened Basics

  type Func = nat
  type Key = nat
  type Data = nat

  datatype Operation = Operation(func: Option<Func>, key: Key, data: Option<Data>)

  /** One call of j_batch_execute_same. */
  datatype Part = Part(func: Option<Func>, list: seq<Data>)

  type Exec<!W> = (Func, seq<Data>, W) -> (W, bool)

  predicate Complete(op: Operation) { op.func.Some? && op.data.Some? }

  predicate AllComplete(ops: seq<Operation>) { forall i :: 0 <= i < |ops| ==> Complete(ops[i]) }

  predicate SameKind(a: Operation, b: Operation) { a.func == b.func && a.key == b.key }

  /** What the loop still does with `ops` when `same` has been collected for the last operation's
      function and key. */
  function Parts(ops: seq<Operation>, same: seq<Data>, func: Option<Func>, key: Key): seq<Part>
    decreases |ops|
  {
    if ops == [] then [Part(func, same)]
    else
      var op := ops[0];
      var datum := Datum(op);
      if (op.func != func || op.key != key) && func.Some?
      then [Part(func, same)] + Parts(ops[1..], datum, op.func, op.key)
      else Parts(ops[1..], same + datum, op.func, op.key)
  }

  /** j_list_append refuses NULL. */
  function Datum(op: Operation): seq<Data> { if op.data.Some? then [op.data.value] else [] }

  function ExecuteSame<W>(exec: Exec<W>, part: Part, w: W): (W, bool) {
    if part.list == [] || part.func.None? then (w, false) else exec(part.func.value, part.list, w)
  }

  /** All parts are executed, whatever the earlier ones returned. */
  function ExecuteParts<W>(exec: Exec<W>, parts: seq<Part>, w: W): (W, bool) {
    if parts == [] then (w, true)
    else
      var (w1, r1) := ExecuteSame(exec, parts[0], w);
      var (w2, r2) := ExecuteParts(exec, parts[1..], w1);
      (w2, r1 && r2)
  }

  lemma {:induction false} ExecuteAppend<W>(exec: Exec<W>, parts: seq<Part>, part: Part, w: W)
    ensures ExecuteParts(exec, parts + [part], w) ==
            var (w1, r1) := ExecuteParts(exec, parts, w);
            var (w2, r2) := ExecuteSame(exec, part, w1);
            (w2, r2 && r1)
  {
    if parts == [] {
      assert parts + [part] == [part];
      assert ExecuteParts(exec, [part][1..], ExecuteSame(exec, part, w).0) == (ExecuteSame(exec, part, w).0, true);
    } else {
      ExecuteAppend(exec, parts[1..], part, ExecuteSame(exec, parts[0], w).0);
      assert (parts + [part])[1..] == parts[1..] + [part];
    }
  }

  method ExecuteInternal<W>(ops: seq<Operation>, exec: Exec<W>, world: W) returns (ret: bool, w: W, parts: seq<Part>)
    ensures parts == Parts(ops, [], None, 0)
    ensures (w, ret) == ExecuteParts(exec, parts, world)
  {
    var same: seq<Data> := [];
    var lastFunc: Option<Func>, lastKey: Key := None, 0;
    ret, w, parts := true, world, [];
    var i := 0;
    while i < |ops|
      invariant 0 <= i <= |ops|
      invariant Parts(ops, [], None, 0) == parts + Parts(ops[i..], same, lastFunc, lastKey)
      invariant (w, ret) == ExecuteParts(exec, parts, world)
    {
      var op := ops[i];
      assert ops[i..][1..] == ops[i + 1..];
      if (op.func != lastFunc || op.key != lastKey) && lastFunc.Some? {
        ExecuteAppend(exec, parts, Part(lastFunc, same), world);
        var (w1, r) := ExecuteSame(exec, Part(lastFunc, same), w);
        w, ret := w1, r && ret;
        ghost var rest := Parts(ops[i + 1..], [] + Datum(op), op.func, op.key);
        assert parts + ([Part(lastFunc, same)] + rest) == (parts + [Part(lastFunc, same)]) + rest;
        assert [] + Datum(op) == Datum(op);
        parts := parts + [Part(lastFunc, same)];
        same := [];
      }
      lastKey, lastFunc := op.key, op.func;
      same := same + Datum(op);
      i := i + 1;
    }
    ExecuteAppend(exec, parts, Part(lastFunc, same), world);
    var (w1, r) := ExecuteSame(exec, Part(lastFunc, same), w);
    w, ret := w1, r && ret;
    parts := parts + [Part(lastFunc, same)];
  }

  // ----- The reference: the maximal runs of operations of one kind -----

  predicate Uniform(run: seq<Operation>) { run != [] && forall i :: 0 <= i < |run| ==> SameKind(run[i], run[0]) }

  /** Run `i` is of another kind than the run before it. */
  predicate Differs(runs: seq<seq<Operation>>, i: nat)
    requires 0 < i < |runs|
  { runs[i - 1] != [] && runs[i] != [] && !SameKind(runs[i - 1][0], runs[i][0]) }

  /** `runs` cuts `ops` into non-empty runs of one kind each, and as few as possible. */
  predicate MaximalRuns(runs: seq<seq<Operation>>, ops: seq<Operation>) {
    && Flatten(runs) == ops
    && (forall i :: 0 <= i < |runs| ==> Uniform(runs[i]))
    && (forall i :: 0 < i < |runs| ==> Differs(runs, i))
  }

  function DataOf(ops: seq<Operation>): seq<Data>
    requires AllComplete(ops)
  { seq(|ops|, i requires 0 <= i < |ops| => ops[i].data.value) }

  ghost predicate PartsAreRuns(parts: seq<Part>, runs: seq<seq<Operation>>) {
    |parts| == |runs| &&
    forall i :: 0 <= i < |runs| ==> runs[i] != [] && AllComplete(runs[i]) && parts[i] == Part(runs[i][0].func, DataOf(runs[i]))
  }

  /** The runs behind `Parts(ops, DataOf(same), ...)`. */
  function RunsFrom(same: seq<Operation>, ops: seq<Operation>): (runs: seq<seq<Operation>>)
    requires Uniform(same)
    ensures MaximalRuns(runs, same + ops) && runs != [] && SameKind(runs[0][0], same[0])
    decreases |ops|
  {
    if ops == [] then
      assert Flatten([same]) == same + Flatten([same][1..]) == same == same + ops;
      [same]
    else if SameKind(ops[0], same[0]) then
      assert same + ops == (same + [ops[0]]) + ops[1..];
      RunsFrom(same + [ops[0]], ops[1..])
    else
      var rest := RunsFrom([ops[0]], ops[1..]);
      assert ops == [ops[0]] + ops[1..];
      var runs := [same] + rest;
      assert runs[1..] == rest;
      assert forall i :: 1 < i < |runs| ==> Differs(rest, i - 1) ==> Differs(runs, i);
      runs
  }

  lemma {:induction false} PartsFrom(same: seq<Operation>, ops: seq<Operation>)
    requires Uniform(same) && AllComplete(same) && AllComplete(ops)
    ensures PartsAreRuns(Parts(ops, DataOf(same), same[0].func, same[0].key), RunsFrom(same, ops))
    decreases |ops|
  {
    if ops != [] {
      if SameKind(ops[0], same[0]) {
        PartsFrom(same + [ops[0]], ops[1..]);
        assert DataOf(same + [ops[0]]) == DataOf(same) + Datum(ops[0]);
      } else {
        PartsFrom([ops[0]], ops[1..]);
        assert DataOf([ops[0]]) == Datum(ops[0]);
      }
    }
  }

  /** Grouping: for every non-empty list of complete operations, what is executed is exactly the list's
      maximal runs of one function and key, in order, with nothing lost, repeated or moved. */
  lemma ExecutesMaximalRuns(ops: seq<Operation>) returns (runs: seq<seq<Operation>>)
    requires ops != [] && AllComplete(ops)
    ensures MaximalRuns(runs, ops) && PartsAreRuns(Parts(ops, [], None, 0), runs)
  {
    runs := RunsFrom([ops[0]], ops[1..]);
    assert [ops[0]] + ops[1..] == ops;
    PartsFrom([ops[0]], ops[1..]);
    assert DataOf([ops[0]]) == [] + Datum(ops[0]);
  }

  /** There is only one way to cut a list into maximal runs. */
  lemma {:induction false} MaximalRunsUnique(a: seq<seq<Operation>>, b: seq<seq<Operation>>, ops: seq<Operation>)
    requires MaximalRuns(a, ops) && MaximalRuns(b, ops)
    ensures a == b
    decreases |ops|
  {
    RunsEmptyIff(a, ops);
    RunsEmptyIff(b, ops);
    if ops != [] {
      FirstRun(a, ops);
      FirstRun(b, ops);
      assert |a[0]| == |b[0]|;
      assert a[0] == ops[..|a[0]|] == b[0];
      TailRuns(a, ops);
      TailRuns(b, ops);
      MaximalRunsUnique(a[1..], b[1..], ops[|a[0]|..]);
      assert a == [a[0]] + a[1..] && b == [b[0]] + b[1..];
    }
  }

  lemma RunsEmptyIff(runs: seq<seq<Operation>>, ops: seq<Operation>)
    requires MaximalRuns(runs, ops)
    ensures runs == [] <==> ops == []
  {}

  /** The first run ends where the list ends or the kind changes for the first time. */
  lemma FirstRun(runs: seq<seq<Operation>>, ops: seq<Operation>)
    requires MaximalRuns(runs, ops) && ops != []
    ensures runs != [] && 0 < |runs[0]| <= |ops| && runs[0] == ops[..|runs[0]|]
    ensures forall i :: 0 <= i < |runs[0]| ==> SameKind(ops[i], ops[0])
    ensures |runs[0]| < |ops| ==> !SameKind(ops[|runs[0]|], ops[0])
  {
    assert ops == runs[0] + Flatten(runs[1..]);
    if |runs[0]| < |ops| {
      assert runs[1..] != [];
      assert Differs(runs, 1);
      assert Flatten(runs[1..]) == runs[1] + Flatten(runs[1..][1..]);
      assert ops[|runs[0]|] == runs[1][0];
    }
  }

  lemma TailRuns(runs: seq<seq<Operation>>, ops: seq<Operation>)
    requires MaximalRuns(runs, ops) && runs != []
    ensures |runs[0]| <= |ops| && MaximalRuns(runs[1..], ops[|runs[0]|..])
  {
    assert ops == runs[0] + Flatten(runs[1..]);
    assert forall i :: 0 < i < |runs[1..]| ==> Differs(runs, i + 1) ==> Differs(runs[1..], i);
  }

  // ----- Grouping preserves meaning -----

  /** `exec` treats a list as the sequential composition of its elements. */
  ghost predicate Sequential<W(!new)>(exec: Exec<W>) {
    forall f: Func, a: seq<Data>, b: seq<Data>, w: W {:trigger exec(f, a + b, w)} :: a != [] && b != [] ==>
      exec(f, a + b, w) ==
      var (w1, r1) := exec(f, a, w);
      var (w2, r2) := exec(f, b, w1);
      (w2, r1 && r2)
  }

  /** The meaning of a list of operations: one at a time, in order. */
  function OneByOne<W>(exec: Exec<W>, ops: seq<Operation>, w: W): (W, bool)
    requires AllComplete(ops)
  {
    if ops == [] then (w, true)
    else
      var (w1, r1) := exec(ops[0].func.value, [ops[0].data.value], w);
      var (w2, r2) := OneByOne(exec, ops[1..], w1);
      (w2, r1 && r2)
  }

  /** One call on a collected run, followed by the rest, does what the operations do one by one. */
  lemma {:induction false} PartsMeanOneByOne<W(!new)>(exec: Exec<W>, done: seq<Data>, func: Func, key: Key, ops: seq<Operation>, w: W)
    requires Sequential(exec) && AllComplete(ops) && done != []
    ensures ExecuteParts(exec, Parts(ops, done, Some(func), key), w) ==
            var (w1, r1) := exec(func, done, w);
            var (w2, r2) := OneByOne(exec, ops, w1);
            (w2, r1 && r2)
    decreases |ops|
  {
    if ops == [] {
      assert ExecuteParts(exec, [Part(Some(func), done)][1..], exec(func, done, w).0) == (exec(func, done, w).0, true);
    } else {
      var op := ops[0];
      assert Datum(op) == [op.data.value];
      if op.func == Some(func) && op.key == key {
        PartsMeanOneByOne(exec, done + Datum(op), func, key, ops[1..], w);
        assert exec(func, done + [op.data.value], w) ==
               var (w1, r1) := exec(func, done, w);
               var (w2, r2) := exec(func, [op.data.value], w1);
               (w2, r1 && r2);
      } else {
        var rest := Parts(ops[1..], Datum(op), op.func, op.key);
        assert ([Part(Some(func), done)] + rest)[1..] == rest;
        PartsMeanOneByOne(exec, Datum(op), op.func.value, op.key, ops[1..], exec(func, done, w).0);
      }
    }
  }

  /** Executing a batch leaves the world and gives the result that its operations would one at a time;
      an empty batch does nothing and reports failure. */
  lemma GroupingPreservesMeaning<W(!new)>(exec: Exec<W>, ops: seq<Operation>, w: W)
    requires Sequential(exec) && AllComplete(ops)
    ensures ExecuteParts(exec, Parts(ops, [], None, 0), w) ==
            if ops == [] then (w, false) else OneByOne(exec, ops, w)
  {
    if ops != [] {
      PartsMeanOneByOne(exec, Datum(ops[0]), ops[0].func.value, ops[0].key, ops[1..], w);
      assert [] + Datum(ops[0]) == Datum(ops[0]);
    }
  }

  // ----- Incomplete operations -----

  /** The function and datum of every operation that is really executed, in order. */
  function Executed(parts: seq<Part>): seq<(Option<Func>, Option<Data>)> {
    if parts == [] then []
    else (if parts[0].func.None? then [] else Pairs(parts[0].func, parts[0].list)) + Executed(parts[1..])
  }

  function Pairs(func: Option<Func>, list: seq<Data>): seq<(Option<Func>, Option<Data>)> {
    seq(|list|, i requires 0 <= i < |list| => (func, Some(list[i])))
  }

  function Wanted(ops: seq<Operation>): seq<(Option<Func>, Option<Data>)> {
    seq(|ops|, i requires 0 <= i < |ops| => (ops[i].func, ops[i].data))
  }

  lemma {:induction false} ExecutedComplete(parts: seq<Part>)
    ensures forall i :: 0 <= i < |Executed(parts)| ==> Executed(parts)[i].0.Some? && Executed(parts)[i].1.Some?
  {
    if parts != [] { ExecutedComplete(parts[1..]); }
  }

  lemma {:induction false} ExecutedFrom(done: seq<Data>, func: Func, key: Key, ops: seq<Operation>)
    requires AllComplete(ops)
    ensures Executed(Parts(ops, done, Some(func), key)) == Pairs(Some(func), done) + Wanted(ops)
    decreases |ops|
  {
    var parts := Parts(ops, done, Some(func), key);
    if ops == [] {
      assert parts[1..] == [];
      assert Executed([]) == [] == Wanted(ops);
    } else {
      var op := ops[0];
      assert Wanted(ops) == [(op.func, op.data)] + Wanted(ops[1..]);
      assert Pairs(op.func, Datum(op)) == [(op.func, op.data)];
      if op.func == Some(func) && op.key == key {
        ExecutedFrom(done + Datum(op), func, key, ops[1..]);
        assert Pairs(Some(func), done + Datum(op)) == Pairs(Some(func), done) + Pairs(op.func, Datum(op));
      } else {
        ExecutedFrom(Datum(op), op.func.value, op.key, ops[1..]);
        assert parts[1..] == Parts(ops[1..], Datum(op), op.func, op.key);
      }
    }
  }

  /** Every operation is executed with its own function and data, in order, exactly when none of them has
      a NULL function or NULL data. (A NULL function makes the operation's data go to the function of the
      operations after it, see `NullFunctionMisdirected`; NULL data is skipped.) */
  lemma FaithfulIffComplete(ops: seq<Operation>)
    ensures Executed(Parts(ops, [], None, 0)) == Wanted(ops) <==> AllComplete(ops)
  {
    var executed := Executed(Parts(ops, [], None, 0));
    ExecutedComplete(Parts(ops, [], None, 0));
    if executed == Wanted(ops) {
      forall i | 0 <= i < |ops| ensures Complete(ops[i]) {
        assert executed[i] == (ops[i].func, ops[i].data);
      }
    }
    if AllComplete(ops) && ops != [] {
      ExecutedFrom(Datum(ops[0]), ops[0].func.value, ops[0].key, ops[1..]);
      assert [] + Datum(ops[0]) == Datum(ops[0]);
      assert Wanted(ops) == Pairs(ops[0].func, Datum(ops[0])) + Wanted(ops[1..]);
    }
  }

  lemma NullFunctionMisdirected(k: Key, d: Data, f: Func, k': Key, d': Data)
    ensures Parts([Operation(None, k, Some(d)), Operation(Some(f), k', Some(d'))], [], None, 0) == [Part(Some(f), [d, d'])]
  {
    var b := Operation(Some(f), k', Some(d'));
    var ops := [Operation(None, k, Some(d)), b];
    assert ops[1..] == [b] && [b][1..] == [];
    assert [] + Datum(ops[0]) == [d];
    assert Parts(ops, [], None, 0) == Parts([b], [d], None, k);
    assert [d] + Datum(b) == [d, d'];
    assert Parts([b], [d], None, k) == Parts([], [d, d'], Some(f), k');
  }

  /** A part without a function or without data is not executed, and makes the batch fail. */
  lemma {:induction false} EmptyPartFails<W>(exec: Exec<W>, parts: seq<Part>, i: nat, w: W)
    requires i < |parts| && (parts[i].func.None? || parts[i].list == [])
    ensures !ExecuteParts(exec, parts, w).1
    ensures ExecuteParts(exec, parts, w).0 == ExecuteParts(exec, parts[..i] + parts[i + 1..], w).0
    decreases |parts|
  {
    if i == 0 {
      assert parts[..0] + parts[1..] == parts[1..];
    } else {
      EmptyPartFails(exec, parts[1..], i - 1, ExecuteSame(exec, parts[0], w).0);
      assert (parts[..i] + parts[i + 1..])[1..] == parts[1..][..i - 1] + parts[1..][i..];
    }
  }

  // ----- Several batches -----

  /** The world after batches that are executed one after the other. */
  function RunAll<W>(exec: Exec<W>, batches: seq<seq<Operation>>, w: W): W {
    if batches == [] then w else RunAll(exec, batches[1..], ExecuteParts(exec, Parts(batches[0], [], None, 0), w).0)
  }

  lemma {:induction false} RunAllAppend<W>(exec: Exec<W>, batches: seq<seq<Operation>>, batch: seq<Operation>, w: W)
    ensures RunAll(exec, batches + [batch], w) == ExecuteParts(exec, Parts(batch, [], None, 0), RunAll(exec, batches, w)).0
    decreases |batches|
  {
    if batches == [] {
      assert batches + [batch] == [batch] && [batch][1..] == [];
    } else {
      assert (batches + [batch])[1..] == batches[1..] + [batch];
      RunAllAppend(exec, batches[1..], batch, ExecuteParts(exec, Parts(batches[0], [], None, 0), w).0);
    }
  }

  lemma {:induction false} OneByOneAppend<W>(exec: Exec<W>, a: seq<Operation>, b: seq<Operation>, w: W)
    requires AllComplete(a) && AllComplete(b) && AllComplete(a + b)
    ensures OneByOne(exec, a + b, w).0 == OneByOne(exec, b, OneByOne(exec, a, w).0).0
    decreases |a|
  {
    if a == [] {
      assert a + b == b;
    } else {
      assert (a + b)[1..] == a[1..] + b;
      OneByOneAppend(exec, a[1..], b, exec(a[0].func.value, [a[0].data.value], w).0);
    }
  }

  lemma SplitComplete(a: seq<Operation>, b: seq<Operation>)
    requires AllComplete(a + b)
    ensures AllComplete(a) && AllComplete(b)
  {
    assert forall i :: 0 <= i < |a| ==> a[i] == (a + b)[i];
    assert forall i :: 0 <= i < |b| ==> b[i] == (a + b)[|a| + i];
  }

  /** However operations are spread over batches, the batches do to the world what the operations do one at a
      time. */
  lemma {:induction false} BatchesMeanOneByOne<W(!new)>(exec: Exec<W>, batches: seq<seq<Operation>>, w: W)
    requires Sequential(exec) && AllComplete(Flatten(batches))
    ensures RunAll(exec, batches, w) == OneByOne(exec, Flatten(batches), w).0
    decreases |batches|
  {
    if batches != [] {
      SplitComplete(batches[0], Flatten(batches[1..]));
      GroupingPreservesMeaning(exec, batches[0], w);
      var w1 := ExecuteParts(exec, Parts(batches[0], [], None, 0), w).0;
      assert w1 == OneByOne(exec, batches[0], w).0;
      BatchesMeanOneByOne(exec, batches[1..], w1);
      OneByOneAppend(exec, batches[0], Flatten(batches[1..]), w);
    }
  }
}
