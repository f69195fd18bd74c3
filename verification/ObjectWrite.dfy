/**
 Object writes of the server (the OBJECT_WRITE case of jd_handle_message, server/loop.c): the data follows the
 requests on the connection. A request for more than the memory chunk holds is answered without taking its data
 off the connection, or stops the server.
 */
module ObjectWrite {
  import opened Basics
  import opened ObjectRead

  /** A call of the backend: these bytes are written at this offset. */
  datatype Write = Write(offset: nat, bytes: Bytes)

  /** How many bytes the backend reports as written. */
  type Backend = Write -> nat

  /** `reply`: the client asked for an answer; `ret`: the object could be opened. */
  datatype Setting = Setting(size: nat, stream: Bytes, reply: bool, ret: bool, backend: Backend)

  /** What has been taken off the connection, written and answered, and whether the server has stopped. */
  datatype Progress = Progress(taken: nat, calls: seq<Write>, acks: seq<nat>, aborted: bool)

  const Start := Progress(0, [], [], false)

  /** The next `n` bytes of the connection. */
  function Next(stream: Bytes, at: nat, n: nat): Bytes { if at + n <= |stream| then stream[at..at + n] else [] }

  /** An oversize request is answered if it can be, and stops the server otherwise. */
  function Serve(x: Setting, p: Progress, r: Request): Progress {
    if r.length > x.size then
      if x.reply && x.ret then p.(acks := p.acks + [0]) else p.(aborted := true)
    else
      var w := Write(r.offset, Next(x.stream, p.taken, r.length));
      Progress(p.taken + r.length,
               if x.ret then p.calls + [w] else p.calls,
               if x.ret && x.reply then p.acks + [x.backend(w)] else p.acks,
               p.aborted)
  }

  function ServeAll(x: Setting, p: Progress, rs: seq<Request>): Progress
    decreases |rs|
  {
    if rs == [] || p.aborted then p else ServeAll(x, Serve(x, p, rs[0]), rs[1..])
  }

  function Total(rs: seq<Request>): nat { if rs == [] then 0 else rs[0].length + Total(rs[1..]) }

  predicate NoneOversize(rs: seq<Request>, size: nat) { forall r <- rs :: r.length <= size }

  /** The loop over the requests; the allocation of a buffer fails only for an oversize request. */
  method Handle(chunk: MemoryChunk, x: Setting, rs: seq<Request>) returns (done: Progress)
    requires chunk.Valid() && chunk.current == 0 && x.size == chunk.data.Length && Total(rs) <= |x.stream|
    modifies chunk`current
    ensures done == ServeAll(x, Start, rs) && (!done.aborted ==> chunk.current == 0)
  {
    var taken: nat, calls: seq<Write>, acks: seq<nat> := 0, [], [];
    var left := rs;
    while left != []
      invariant chunk.Valid() && chunk.current == 0
      invariant ServeAll(x, Progress(taken, calls, acks, false), left) == ServeAll(x, Start, rs)
      decreases |left|
    {
      var r := left[0];
      left := left[1..];
      if r.length > x.size && x.reply && x.ret {
        acks := acks + [0];
        continue;
      }
      var buffer := chunk.Get(r.length);
      if buffer.None? { return Progress(taken, calls, acks, true); }
      var w := Write(r.offset, Next(x.stream, taken, r.length));
      taken := taken + r.length;
      if x.ret {
        calls := calls + [w];
        if x.reply { acks := acks + [x.backend(w)]; }
      }
      chunk.Reset();
    }
    return Progress(taken, calls, acks, false);
  }

  /** The server stops if and only if it meets an oversize request that it cannot answer. */
  lemma {:induction false} AbortsIff(x: Setting, p: Progress, rs: seq<Request>)
    requires !p.aborted
    ensures ServeAll(x, p, rs).aborted <==> !(x.reply && x.ret) && !NoneOversize(rs, x.size)
    decreases |rs|
  {
    if rs != [] {
      OversizeHead(rs, x.size);
      if !Serve(x, p, rs[0]).aborted { AbortsIff(x, Serve(x, p, rs[0]), rs[1..]); }
    }
  }

  lemma OversizeHead(rs: seq<Request>, size: nat)
    requires rs != []
    ensures NoneOversize(rs, size) <==> rs[0].length <= size && NoneOversize(rs[1..], size)
  {
    assert rs == [rs[0]] + rs[1..];
  }

  /** Whether the server stops or goes on, the data of every request is taken off the connection if and only if
      no request is oversize. */
  lemma {:induction false} InStepIff(x: Setting, p: Progress, rs: seq<Request>)
    requires !p.aborted
    ensures p.taken <= ServeAll(x, p, rs).taken <= p.taken + Total(rs)
    ensures ServeAll(x, p, rs).taken == p.taken + Total(rs) <==> NoneOversize(rs, x.size)
    decreases |rs|
  {
    if rs != [] {
      OversizeHead(rs, x.size);
      if !Serve(x, p, rs[0]).aborted { InStepIff(x, Serve(x, p, rs[0]), rs[1..]); }
    }
  }

  /** Every request is answered once. */
  lemma {:induction false} AnsweredOnce(x: Setting, p: Progress, rs: seq<Request>)
    requires x.reply && x.ret && !p.aborted
    ensures |ServeAll(x, p, rs).acks| == |p.acks| + |rs|
    decreases |rs|
  {
    if rs != [] { AnsweredOnce(x, Serve(x, p, rs[0]), rs[1..]); }
  }

  /** The data of the requests that are not oversize. */
  function Fitting(rs: seq<Request>, size: nat): nat {
    if rs == [] then 0 else (if rs[0].length > size then 0 else rs[0].length) + Fitting(rs[1..], size)
  }

  /** The answer to a request at a place of the connection: nothing written if it is oversize, and otherwise what the
      backend reports for the data that comes next. */
  function AckFor(x: Setting, taken: nat, r: Request): nat {
    if r.length > x.size then 0 else x.backend(Write(r.offset, Next(x.stream, taken, r.length)))
  }

  function AckList(x: Setting, taken: nat, rs: seq<Request>): (acks: seq<nat>)
    ensures |acks| == |rs|
    decreases |rs|
  {
    if rs == [] then []
    else [AckFor(x, taken, rs[0])] + AckList(x, taken + if rs[0].length > x.size then 0 else rs[0].length, rs[1..])
  }

  lemma {:induction false} AckListAt(x: Setting, taken: nat, rs: seq<Request>, i: nat)
    requires i < |rs|
    ensures AckList(x, taken, rs)[i] == AckFor(x, taken + Fitting(rs[..i], x.size), rs[i])
    decreases |rs|
  {
    if i == 0 {
      assert rs[..0] == [];
    } else {
      AckListAt(x, taken + if rs[0].length > x.size then 0 else rs[0].length, rs[1..], i - 1);
      assert rs[..i][1..] == rs[1..][..i - 1];
    }
  }

  lemma {:induction false} AcksAre(x: Setting, p: Progress, rs: seq<Request>)
    requires x.reply && x.ret && !p.aborted
    ensures ServeAll(x, p, rs).acks == p.acks + AckList(x, p.taken, rs)
    decreases |rs|
  {
    if rs != [] {
      AcksAre(x, Serve(x, p, rs[0]), rs[1..]);
      var rest := AckList(x, Serve(x, p, rs[0]).taken, rs[1..]);
      Shift(p.acks, AckFor(x, p.taken, rs[0]), rest);
    }
  }

  /** What every request is answered. */
  lemma {:induction false} AnswerOf(x: Setting, rs: seq<Request>, i: nat)
    requires x.reply && x.ret && i < |rs|
    ensures |ServeAll(x, Start, rs).acks| == |rs|
    ensures ServeAll(x, Start, rs).acks[i]
         == if rs[i].length > x.size then 0
            else x.backend(Write(rs[i].offset, Next(x.stream, Fitting(rs[..i], x.size), rs[i].length)))
  {
    AcksAre(x, Start, rs);
    AckListAt(x, 0, rs, i);
  }

  /** The client sends one piece of data per request, of the length that the request says. */
  predicate Carries(rs: seq<Request>, pieces: seq<Bytes>) {
    |pieces| == |rs| && forall i :: 0 <= i < |rs| ==> |pieces[i]| == rs[i].length
  }

  function Own(rs: seq<Request>, pieces: seq<Bytes>): seq<Write>
    requires |pieces| == |rs|
  { if rs == [] then [] else [Write(rs[0].offset, pieces[0])] + Own(rs[1..], pieces[1..]) }

  function Reported(ws: seq<Write>, backend: Backend): seq<nat> {
    if ws == [] then [] else [backend(ws[0])] + Reported(ws[1..], backend)
  }

  lemma ServeOwn(x: Setting, p: Progress, r: Request, piece: Bytes, rest: Bytes)
    requires |piece| == r.length <= x.size && p.taken <= |x.stream| && x.stream[p.taken..] == piece + rest
    ensures var q := Serve(x, p, r);
            && q.taken <= |x.stream| && x.stream[q.taken..] == rest
            && Next(x.stream, p.taken, r.length) == piece
  {
    var tail := x.stream[p.taken..];
    assert tail[..|piece|] == piece && tail[|piece|..] == rest;
    assert x.stream[p.taken..p.taken + |piece|] == tail[..|piece|];
    assert x.stream[p.taken + |piece|..] == tail[|piece|..];
  }

  /** Without oversize requests, every request writes its own data at its own offset, and is told the outcome. */
  lemma {:induction false} WritesOwnData(x: Setting, p: Progress, rs: seq<Request>, pieces: seq<Bytes>)
    requires Carries(rs, pieces) && NoneOversize(rs, x.size) && x.ret && !p.aborted
    requires p.taken <= |x.stream| && x.stream[p.taken..] == Flatten(pieces)
    ensures ServeAll(x, p, rs).calls == p.calls + Own(rs, pieces)
    ensures ServeAll(x, p, rs).acks == if x.reply then p.acks + Reported(Own(rs, pieces), x.backend) else p.acks
    decreases |rs|
  {
    if rs != [] {
      OversizeHead(rs, x.size);
      ServeOwn(x, p, rs[0], pieces[0], Flatten(pieces[1..]));
      WritesOwnData(x, Serve(x, p, rs[0]), rs[1..], pieces[1..]);
      var w := Write(rs[0].offset, pieces[0]);
      Shift(p.calls, w, Own(rs[1..], pieces[1..]));
      OwnReported(rs, pieces, x.backend);
      Shift(p.acks, x.backend(w), Reported(Own(rs[1..], pieces[1..]), x.backend));
    }
  }

  lemma Shift<T>(xs: seq<T>, y: T, ys: seq<T>)
    ensures xs + [y] + ys == xs + ([y] + ys)
  {}

  lemma OwnReported(rs: seq<Request>, pieces: seq<Bytes>, backend: Backend)
    requires |pieces| == |rs| > 0
    ensures Reported(Own(rs, pieces), backend)
         == [backend(Write(rs[0].offset, pieces[0]))] + Reported(Own(rs[1..], pieces[1..]), backend)
  {
    assert Own(rs, pieces)[1..] == Own(rs[1..], pieces[1..]);
  }

  /** After an oversize request that is answered, the next one writes the data of that request. */
  lemma OversizeShifts(x: Setting, big: Request, r: Request, a: Bytes, b: Bytes)
    requires |b| == r.length <= x.size < |a| == big.length && x.ret && x.reply && x.stream == a + b
    ensures ServeAll(x, Start, [big, r]).calls == [Write(r.offset, a[..|b|])]
  {
    var p := Progress(0, [], [0], false);
    assert [big, r][1..] == [r] && [r][1..] == [];
    assert Serve(x, Start, big) == p;
    assert ServeAll(x, p, [r]) == Serve(x, p, r);
    assert x.stream[0..|b|] == a[..|b|];
  }
}
