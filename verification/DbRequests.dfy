/**
 The database requests of the server (the DB_* cases of jd_handle_message, server/loop.c): every request
 of the message is decoded, handed to the backend or skipped, and answered in one reply. The client reads
 the answers one after the other (lib/db/jdb-internal.c).

 The out parameters of an operation are some documents and an error slot. They are copied from a constant
 template in which the documents are all zero, so they have length zero until an operation sets them.
 */
module DbRequests {
  import opened Basics
  import opened Message
  import opened BackendOperation

  /** J_SEMANTICS_ATOMICITY_BATCH, or one of the two levels that treat every operation on its own. */
  datatype Atomicity = PerBatch | PerOperation

  /** What backend_func returns and leaves in the out parameters. */
  datatype Outcome = Outcome(ok: bool, docs: seq<Bytes>, error: Option<Err>)

  /** The database backend: the error of the batch start (of the whole batch), and the outcome of request i. */
  datatype Backend = Backend(start: Option<Err>, run: (nat, seq<Param>) -> Outcome)

  /** The out parameters of an operation when they are encoded: the documents, whether they are marked as
      initialised, and the content of the error slot. */
  datatype Answer = Answer(docs: seq<Bytes>, initialized: bool, error: Option<Err>)

  function ParamsOf(a: Answer): (ps: seq<Param>)
    ensures |ps| == |a.docs| + 1
  { seq(|a.docs|, j requires 0 <= j < |a.docs| => Bson(Some(a.docs[j]), a.initialized)) + [Error(Some(a.error))] }

  /** The answer fits into a message. */
  predicate Fits(a: Answer) { AllTyped(ParamsOf(a)) && Announced(ParamsOf(a)) < MAX }

  function Zeroed(n: nat): (docs: seq<Bytes>)
    ensures |docs| == n && forall d <- docs :: d == []
  { seq(n, _ => []) }

  /** The mark survives the encoding of documents of length zero. */
  predicate Kept(docs: seq<Bytes>, mark: bool) { mark && docs != [] && forall d <- docs :: d == [] }

  /** The variables of the loop; `destroyed` are the rounds in which the documents are destroyed. */
  datatype Loop = Loop(ret: bool, docs: seq<Bytes>, mark: bool, executed: seq<nat>, answers: seq<Answer>, destroyed: seq<nat>)

  /** The documents are marked if `ret` is set, the answer is encoded, and the documents are destroyed if
      `ret` is set. */
  function Answered(i: nat, l: Loop, error: Option<Err>): Loop {
    var mark := l.ret || l.mark;
    l.(mark := Kept(l.docs, mark), answers := l.answers + [Answer(l.docs, mark, error)],
       destroyed := if l.ret then l.destroyed + [i] else l.destroyed)
  }

  /** One round: run the request, or skip it. A skipped request gets a copy of the batch start's error. */
  function Round(at: Atomicity, b: Backend, i: nat, req: seq<Param>, l: Loop): Loop {
    if at.PerOperation? || (l.ret && b.start.None?) then
      var o := b.run(i, req);
      Answered(i, l.(ret := o.ok, docs := o.docs, executed := l.executed + [i]), o.error)
    else
      Answered(i, l, b.start)
  }

  /** All rounds, for an operation with `n` documents. */
  function Rounds(at: Atomicity, b: Backend, reqs: seq<seq<Param>>, n: nat): (l: Loop)
    ensures |l.answers| == |reqs|
  {
    if reqs == [] then Loop(true, Zeroed(n), false, [], [], [])
    else Round(at, b, |reqs| - 1, reqs[|reqs| - 1], Rounds(at, b, reqs[..|reqs| - 1], n))
  }

  /** The kinds of the parameters of `n` operations of one type. */
  function Repeat(ks: seq<Kind>, n: nat): (r: seq<seq<Kind>>)
    ensures |r| == n
  { if n == 0 then [] else Repeat(ks, n - 1) + [ks] }

  ghost function Encoded(a: Answer): Bytes { EncodeAll(ParamsOf(a)) }

  ghost function AllEncoded(answers: seq<Answer>): (pieces: seq<Bytes>)
    ensures |pieces| == |answers| && forall i :: 0 <= i < |answers| ==> pieces[i] == Encoded(answers[i])
  { seq(|answers|, i requires 0 <= i < |answers| => Encoded(answers[i])) }

  /** The bytes of a reply with these answers. */
  ghost function Reply(answers: seq<Answer>): Bytes { Flatten(AllEncoded(answers)) }

  lemma ReplyAppend(answers: seq<Answer>, a: Answer)
    ensures Reply(answers + [a]) == Reply(answers) + Encoded(a)
  {
    assert AllEncoded(answers + [a]) == AllEncoded(answers) + [Encoded(a)];
    FlattenAppend(AllEncoded(answers), Encoded(a));
  }

  // ----- The request loop -----

  /** The backend sets as many documents as the operation has, they fit into a message, and a backend that
      reports success has initialised them. */
  ghost predicate GoodBackend(b: Backend, n: nat) {
    forall i: nat, ps: seq<Param> {:trigger GoodOutcome(b.run(i, ps), n)} :: GoodOutcome(b.run(i, ps), n)
  }

  predicate GoodOutcome(o: Outcome, n: nat) {
    && |o.docs| == n && Fits(Answer(o.docs, o.ok, o.error)) && Fits(Answer(o.docs, false, None))
    && (o.ok ==> forall d <- o.docs :: BsonOk(d))
  }

  ghost predicate GoodStart(b: Backend, n: nat) { Fits(Answer(Zeroed(n), true, b.start)) && Fits(Answer(Zeroed(n), false, None)) }

  /** What the loop keeps: documents are marked between two rounds only if they are the zeroed ones of a
      batch that did not start. */
  ghost predicate LoopOk(at: Atomicity, b: Backend, n: nat, l: Loop) {
    |l.docs| == n && Fits(Answer(l.docs, false, None)) && MarksOk(at, b, n, l)
  }

  predicate MarksOk(at: Atomicity, b: Backend, n: nat, l: Loop) {
    if at.PerBatch? && b.start.Some? then l.ret && l.docs == Zeroed(n) else !l.mark
  }

  /** An answer that can be sent: documents that are marked are all zeroed or all initialised. */
  predicate AnswerOk(n: nat, a: Answer) {
    && |a.docs| == n && Fits(a)
    && (a.initialized ==> (forall d <- a.docs :: d == []) || (forall d <- a.docs :: d != []))
  }

  lemma RanOk(b: Backend, n: nat, i: nat, req: seq<Param>)
    requires GoodBackend(b, n)
    ensures var o := b.run(i, req);
            && AnswerOk(n, Answer(o.docs, o.ok, o.error)) && Fits(Answer(o.docs, false, None)) && !Kept(o.docs, o.ok)
  {
    var o := b.run(i, req);
    assert GoodOutcome(o, n);
    forall d | d in o.docs && o.ok ensures d != [] { assert BsonOk(d); }
    if o.docs != [] { assert o.docs[0] in o.docs; }
  }

  lemma RoundOk(at: Atomicity, b: Backend, n: nat, i: nat, req: seq<Param>, l: Loop)
    requires GoodBackend(b, n) && GoodStart(b, n) && LoopOk(at, b, n, l)
    ensures var l' := Round(at, b, i, req, l);
            var a := l'.answers[|l.answers|];
            && LoopOk(at, b, n, l') && l'.answers == l.answers + [a]
            && AnswerOk(n, a) && l'.docs == a.docs && l'.mark == Kept(a.docs, a.initialized)
  {
    if at.PerOperation? || (l.ret && b.start.None?) {
      RanOk(b, n, i, req);
    } else if b.start.None? {
      assert !l.ret && !l.mark;
    }
  }

  /** The out parameters hold the documents and their mark. */
  ghost predicate Holds(out: seq<Param>, docs: seq<Bytes>, mark: bool) {
    |out| == |docs| + 1 && forall j :: 0 <= j < |docs| ==> out[j] == Bson(Some(docs[j]), mark)
  }

  /** What backend_func does to the documents. */
  method SetDocs(out: array<Param>, docs: seq<Bytes>, ghost was: seq<Bytes>, ghost mark: bool)
    requires |docs| == |was| && Holds(out[..], was, mark)
    modifies out
    ensures Holds(out[..], docs, mark)
  {
    for j := 0 to |docs|
      invariant forall k :: 0 <= k < |docs| ==> out[k] == Bson(Some(if k < j then docs[k] else was[k]), mark)
    {
      out[j] := out[j].(doc := Some(docs[j]));
    }
  }

  /** Marks the documents if `ret` is set. */
  method SetMarks(out: array<Param>, ret: bool, ghost docs: seq<Bytes>, ghost mark: bool)
    requires Holds(out[..], docs, mark)
    modifies out
    ensures Holds(out[..], docs, ret || mark) && out[|docs|] == old(out[|docs|])
  {
    for j := 0 to out.Length - 1
      invariant out[|docs|] == old(out[|docs|])
      invariant forall k :: 0 <= k < |docs| ==> out[k] == Bson(Some(docs[k]), if k < j then ret || mark else mark)
    {
      if ret { out[j] := out[j].(initialized := true); }
    }
  }

  /** Encodes the answer; what is left in the out parameters is what the next round starts with. */
  method Send(reply: Buffer, out: array<Param>, ghost a: Answer, ghost before: seq<Answer>)
    requires reply.Writing() && out[..] == ParamsOf(a) && AnswerOk(|a.docs|, a) && reply.data == Reply(before)
    modifies reply, out
    ensures reply.Writing() && reply.count == old(reply.count) + 1 && reply.data == Reply(before + [a])
    ensures Holds(out[..], a.docs, Kept(a.docs, a.initialized))
  {
    ghost var was := out[..];
    var _ := ToMessage(reply, out);
    ReplyAppend(before, a);
    forall j | 0 <= j < |a.docs| ensures out[j] == Bson(Some(a.docs[j]), Kept(a.docs, a.initialized)) {
      assert was[j] == Bson(Some(a.docs[j]), a.initialized) && a.docs[j] in a.docs;
    }
  }

  lemma HoldsAll(out: seq<Param>, a: Answer)
    requires Holds(out, a.docs, a.initialized) && out[|a.docs|] == Error(Some(a.error))
    ensures out == ParamsOf(a)
  {}

  /** One request: run or skip it, mark, encode and destroy. */
  method Serve(at: Atomicity, b: Backend, i: nat, req: seq<Param>, ghost n: nat, l: Loop, reply: Buffer, out: array<Param>)
    returns (l': Loop)
    requires GoodBackend(b, n) && GoodStart(b, n) && LoopOk(at, b, n, l)
    requires reply.Writing() && reply.data == Reply(l.answers) && Holds(out[..], l.docs, l.mark)
    modifies reply, out
    ensures l' == Round(at, b, i, req, l) && LoopOk(at, b, n, l')
    ensures reply.Writing() && reply.count == old(reply.count) + 1 && reply.data == Reply(l'.answers)
    ensures Holds(out[..], l'.docs, l'.mark)
  {
    RoundOk(at, b, n, i, req, l);
    l' := Round(at, b, i, req, l);
    ghost var a := l'.answers[|l.answers|];
    var last := out.Length - 1;
    out[last] := Error(Some(None));
    if at.PerOperation? || (l.ret && b.start.None?) {
      var o := b.run(i, req);
      SetDocs(out, o.docs, l.docs, l.mark);
      out[last] := Error(Some(o.error));
    } else {
      out[last] := Error(Some(b.start));
    }
    SetMarks(out, l'.ret, l'.docs, l.mark);
    HoldsAll(out[..], a);
    Send(reply, out, a, l.answers);
  }

  /** The loop after these requests. */
  ghost predicate Answering(at: Atomicity, b: Backend, n: nat, reqs: seq<seq<Param>>, l: Loop, reply: Buffer, out: array<Param>)
    reads reply, out
  {
    && l == Rounds(at, b, reqs, n) && LoopOk(at, b, n, l) && Holds(out[..], l.docs, l.mark)
    && reply.Writing() && reply.count == |reqs| && reply.data == Reply(l.answers)
  }

  /** Serves the last of these requests. */
  method ServeNext(at: Atomicity, b: Backend, n: nat, reqs: seq<seq<Param>>, l: Loop, reply: Buffer, out: array<Param>)
    returns (l': Loop)
    requires GoodBackend(b, n) && GoodStart(b, n) && reqs != [] && Answering(at, b, n, reqs[..|reqs| - 1], l, reply, out)
    modifies reply, out
    ensures Answering(at, b, n, reqs, l', reply, out)
  {
    l' := Serve(at, b, |reqs| - 1, reqs[|reqs| - 1], n, l, reply, out);
  }

  /** The out parameters as they are copied from the template. */
  method NewOut(n: nat) returns (out: array<Param>)
    ensures fresh(out) && Holds(out[..], Zeroed(n), false)
  {
    out := new Param[n + 1](i => if i < n then Bson(Some([]), false) else Error(Some(None)));
  }

  /** The state before the first request. */
  method Begin(at: Atomicity, b: Backend, n: nat, ghost reply: Buffer) returns (l: Loop, out: array<Param>)
    requires GoodStart(b, n) && reply.Writing() && reply.data == [] && reply.count == 0
    ensures fresh(out) && Answering(at, b, n, [], l, reply, out)
  {
    l := Rounds(at, b, [], n);
    out := NewOut(n);
  }

  /** The first `i` requests have been decoded. */
  ghost predicate Done(ks: seq<Kind>, data: Bytes, start: nat, i: nat, reqs: seq<seq<Param>>, cur: nat) {
    && !StopsOps(Repeat(ks, i), data, start) && |reqs| == i
    && reqs == DecodeOps(Repeat(ks, i), data, start).value && cur == DecodeOps(Repeat(ks, i), data, start).cur
  }

  /** Decodes one request more, unless the server stops. */
  method DecodeNext(message: Buffer, ks: seq<Kind>, i: nat, ghost count: nat, reqs: seq<seq<Param>>, ghost start: nat)
    returns (reqs': seq<seq<Param>>, stopped: bool)
    requires Done(ks, message.data, start, i, reqs, message.current) && i < count
    modifies message`current
    ensures stopped ==> StopsOps(Repeat(ks, count), message.data, start)
    ensures !stopped ==> Done(ks, message.data, start, i + 1, reqs', message.current)
    ensures !stopped ==> |reqs'| == i + 1 && reqs'[..i] == reqs
  {
    DecodeLastOp(Repeat(ks, i), ks, message.data, start);
    var ret, req;
    ret, req, stopped := FromMessageStatic(message, ks);
    if stopped { StopsLater(ks, i + 1, count, message.data, start); }
    reqs' := reqs + [req];
  }

  /** The whole message: all requests are decoded in order, and the reply is one answer each, unless a
      document is cut short and the server stops. */
  method Handle(message: Buffer, ks: seq<Kind>, count: nat, at: Atomicity, b: Backend, n: nat, reply: Buffer)
    returns (reqs: seq<seq<Param>>, l: Loop, stopped: bool)
    requires message != reply && reply.Writing() && reply.data == [] && reply.count == 0
    requires GoodBackend(b, n) && GoodStart(b, n)
    modifies message`current, reply
    ensures stopped <==> StopsOps(Repeat(ks, count), message.data, old(message.current))
    ensures !stopped ==> reqs == DecodeOps(Repeat(ks, count), message.data, old(message.current)).value
    ensures !stopped ==> message.current == DecodeOps(Repeat(ks, count), message.data, old(message.current)).cur
    ensures !stopped ==> l == Rounds(at, b, reqs, n)
    ensures !stopped ==> reply.Writing() && reply.count == count && reply.data == Reply(l.answers)
  {
    reqs := [];
    var out;
    l, out := Begin(at, b, n, reply);
    ghost var start := message.current;
    for i := 0 to count
      invariant Done(ks, message.data, start, i, reqs, message.current)
      invariant |reqs| == i && Answering(at, b, n, reqs, l, reply, out)
    {
      reqs, stopped := DecodeNext(message, ks, i, count, reqs, start);
      if stopped { return; }
      l := ServeNext(at, b, n, reqs, l, reply, out);
    }
    stopped := false;
  }

  lemma {:induction false} StopsLater(ks: seq<Kind>, i: nat, count: nat, data: Bytes, cur: nat)
    requires i <= count && StopsOps(Repeat(ks, i), data, cur)
    ensures StopsOps(Repeat(ks, count), data, cur)
  {
    if i < count {
      StopsLater(ks, i, count - 1, data, cur);
      DecodeLastOp(Repeat(ks, count - 1), ks, data, cur);
    }
  }

  // ----- Theorems about every list of requests -----

  lemma {:induction false} SameKinds(ops: seq<seq<Param>>, ks: seq<Kind>)
    requires forall i :: 0 <= i < |ops| ==> Kinds(ops[i]) == ks
    ensures KindsOf(ops) == Repeat(ks, |ops|)
  {
    if ops != [] {
      assert Kinds(ops[|ops| - 1]) == ks;
      SameKinds(ops[..|ops| - 1], ks);
    }
  }

  /** The server decodes exactly the requests that the client encoded, each once, in order and to the last
      byte, and does not stop. */
  lemma {:induction false} DecodesWhatWasSent(ops: seq<seq<Param>>, ks: seq<Kind>, data: Bytes, cur: nat)
    requires AllSendable(ops) && (forall i :: 0 <= i < |ops| ==> Kinds(ops[i]) == ks) && At(data, cur, EncodeOps(ops))
    ensures DecodeOps(Repeat(ks, |ops|), data, cur).value == CarriedOps(ops)
    ensures DecodeOps(Repeat(ks, |ops|), data, cur).cur == cur + |EncodeOps(ops)|
    ensures !StopsOps(Repeat(ks, |ops|), data, cur)
  {
    SameKinds(ops, ks);
    MessageRoundTrip(ops, data, cur);
  }

  lemma {:induction false} RoundsOk(at: Atomicity, b: Backend, reqs: seq<seq<Param>>, n: nat)
    requires GoodBackend(b, n) && GoodStart(b, n)
    ensures LoopOk(at, b, n, Rounds(at, b, reqs, n))
  {
    if reqs != [] {
      var m := |reqs| - 1;
      RoundsOk(at, b, reqs[..m], n);
      RoundOk(at, b, n, m, reqs[m], Rounds(at, b, reqs[..m], n));
    }
  }

  /** The answer to a request that was not executed. */
  predicate SkippedAnswer(b: Backend, n: nat, a: Answer) {
    a.initialized == b.start.Some? && a.error == b.start && (b.start.Some? ==> a.docs == Zeroed(n))
  }

  /** The executed requests are the first ones, and have their own answers; the others have none. */
  ghost predicate Split(b: Backend, reqs: seq<seq<Param>>, n: nat, l: Loop) {
    var m := |l.executed|;
    && m <= |reqs| == |l.answers|
    && (forall i :: 0 <= i < m ==> l.executed[i] == i)
    && (forall i :: 0 <= i < m ==> var o := b.run(i, reqs[i]); l.answers[i] == Answer(o.docs, o.ok, o.error))
    && (forall i :: m <= i < |reqs| ==> SkippedAnswer(b, n, l.answers[i]))
  }

  /** Where the executed requests end. */
  ghost predicate Ends(at: Atomicity, b: Backend, reqs: seq<seq<Param>>, l: Loop) {
    var m := |l.executed|;
    m <= |reqs| &&
    if at.PerOperation? then m == |reqs|
    else if b.start.Some? then m == 0 && l.ret
    else
      && (forall i :: 0 <= i < m - 1 ==> b.run(i, reqs[i]).ok)
      && (l.ret <==> m == 0 || b.run(m - 1, reqs[m - 1]).ok)
      && (m < |reqs| ==> !l.ret)
  }

  lemma RoundSplits(at: Atomicity, b: Backend, reqs: seq<seq<Param>>, req: seq<Param>, n: nat, l: Loop)
    requires Split(b, reqs, n, l) && Ends(at, b, reqs, l) && MarksOk(at, b, n, l)
    ensures Split(b, reqs + [req], n, Round(at, b, |reqs|, req, l))
  {}

  lemma RoundEnds(at: Atomicity, b: Backend, reqs: seq<seq<Param>>, req: seq<Param>, l: Loop)
    requires Ends(at, b, reqs, l) && (|l.executed| < |reqs| && at.PerBatch? && b.start.None? ==> !l.ret)
    ensures Ends(at, b, reqs + [req], Round(at, b, |reqs|, req, l))
  {}

  /** Every request is answered once and in order; the executed requests are the first ones; under batch
      atomicity they end with the first that fails, or are none at all if the batch could not be started;
      and every answer is that of its own request if it was executed, and otherwise carries nothing but the
      error of the batch start, if there was one, with the zeroed documents. */
  lemma {:induction false} ExecutedThenSkipped(at: Atomicity, b: Backend, reqs: seq<seq<Param>>, n: nat)
    requires GoodBackend(b, n) && GoodStart(b, n)
    ensures Split(b, reqs, n, Rounds(at, b, reqs, n)) && Ends(at, b, reqs, Rounds(at, b, reqs, n))
  {
    if reqs != [] {
      var k := |reqs| - 1;
      ExecutedThenSkipped(at, b, reqs[..k], n);
      RoundsOk(at, b, reqs[..k], n);
      assert reqs[..k] + [reqs[k]] == reqs;
      RoundSplits(at, b, reqs[..k], reqs[k], n, Rounds(at, b, reqs[..k], n));
      RoundEnds(at, b, reqs[..k], reqs[k], Rounds(at, b, reqs[..k], n));
    }
  }

  lemma {:induction false} DestroyedWhereMarked(at: Atomicity, b: Backend, reqs: seq<seq<Param>>, n: nat, i: nat)
    requires GoodBackend(b, n) && GoodStart(b, n)
    ensures i in Rounds(at, b, reqs, n).destroyed <==> i < |reqs| && Rounds(at, b, reqs, n).answers[i].initialized
  {
    if reqs != [] {
      var k := |reqs| - 1;
      DestroyedWhereMarked(at, b, reqs[..k], n, i);
      RoundsOk(at, b, reqs[..k], n);
    }
  }

  lemma {:induction false} DocsKept(at: Atomicity, b: Backend, reqs: seq<seq<Param>>, n: nat, i: nat)
    requires GoodBackend(b, n) && GoodStart(b, n) && i < |reqs|
    ensures var a := Rounds(at, b, reqs, n).answers[i]; |a.docs| == n && Fits(a)
  {
    var k := |reqs| - 1;
    RoundsOk(at, b, reqs[..k], n);
    RoundOk(at, b, n, k, reqs[k], Rounds(at, b, reqs[..k], n));
    if i < k { DocsKept(at, b, reqs[..k], n, i); }
  }

  /** Request `i` was executed and succeeded. */
  predicate Succeeded(b: Backend, reqs: seq<seq<Param>>, l: Loop, i: nat)
    requires i < |reqs|
  { i in l.executed && b.run(i, reqs[i]).ok }

  /** Documents are marked as initialised, and destroyed, although their operation did not succeed. */
  predicate Unsound(b: Backend, reqs: seq<seq<Param>>, l: Loop, i: nat)
    requires i < |l.answers| == |reqs|
  {
    && l.answers[i].docs != [] && !Succeeded(b, reqs, l, i)
    && (l.answers[i].initialized || i in l.destroyed)
  }

  lemma CountsUp(xs: seq<nat>, i: nat)
    requires forall k :: 0 <= k < |xs| ==> xs[k] == k
    ensures i in xs <==> i < |xs|
  {
    if i < |xs| { assert xs[i] == i; }
  }

  lemma UnsoundIff(at: Atomicity, b: Backend, reqs: seq<seq<Param>>, n: nat, i: nat)
    requires GoodBackend(b, n) && GoodStart(b, n) && i < |reqs|
    ensures Unsound(b, reqs, Rounds(at, b, reqs, n), i) <==> at.PerBatch? && b.start.Some? && n > 0
    ensures var l := Rounds(at, b, reqs, n);
            Unsound(b, reqs, l, i) ==> l.answers[i] == Answer(Zeroed(n), true, b.start) && i in l.destroyed
  {
    var l := Rounds(at, b, reqs, n);
    ExecutedThenSkipped(at, b, reqs, n);
    CountsUp(l.executed, i);
    DestroyedWhereMarked(at, b, reqs, n, i);
    DocsKept(at, b, reqs, n, i);
  }

  /** Documents are marked and destroyed only for operations that succeeded, unless an operation with documents
      was requested in a batch that could not be started: then `ret` stays set, and for every request the
      documents of the template, which nothing has initialised, are marked and destroyed. */
  lemma DocumentsSoundIff(at: Atomicity, b: Backend, reqs: seq<seq<Param>>, n: nat)
    requires GoodBackend(b, n) && GoodStart(b, n)
    ensures (forall i :: 0 <= i < |reqs| ==> !Unsound(b, reqs, Rounds(at, b, reqs, n), i))
            <==> at.PerOperation? || b.start.None? || n == 0 || reqs == []
  {
    forall i | 0 <= i < |reqs|
      ensures Unsound(b, reqs, Rounds(at, b, reqs, n), i) <==> at.PerBatch? && b.start.Some? && n > 0
    {
      UnsoundIff(at, b, reqs, n, i);
    }
    if reqs != [] { UnsoundIff(at, b, reqs, n, 0); }
  }

  /** Even then no document is sent that its own operation has not set: the zeroed ones have length zero. */
  lemma {:induction false} SentIsSound(at: Atomicity, b: Backend, reqs: seq<seq<Param>>, n: nat, i: nat, j: nat)
    requires GoodBackend(b, n) && GoodStart(b, n) && i < |reqs| && j < n
    ensures var a := Rounds(at, b, reqs, n).answers[i];
            |a.docs| == n && (Carried(ParamsOf(a)[j]) != Bson(None, false) <==> Succeeded(b, reqs, Rounds(at, b, reqs, n), i))
  {
    ExecutedThenSkipped(at, b, reqs, n);
    DocsKept(at, b, reqs, n, i);
    SetOnSuccess(b, n, i, reqs[i], j);
    SentIff(b, reqs, n, Rounds(at, b, reqs, n), i, j);
  }

  lemma SetOnSuccess(b: Backend, n: nat, i: nat, req: seq<Param>, j: nat)
    requires GoodBackend(b, n) && j < n
    ensures |b.run(i, req).docs| == n && (b.run(i, req).ok ==> b.run(i, req).docs[j] != [])
  {
    var o := b.run(i, req);
    assert GoodOutcome(o, n);
    if o.ok { assert BsonOk(o.docs[j]); }
  }

  lemma SentIff(b: Backend, reqs: seq<seq<Param>>, n: nat, l: Loop, i: nat, j: nat)
    requires Split(b, reqs, n, l) && i < |reqs| && j < n && |l.answers[i].docs| == n
    requires |b.run(i, reqs[i]).docs| == n && (b.run(i, reqs[i]).ok ==> b.run(i, reqs[i]).docs[j] != [])
    ensures Carried(ParamsOf(l.answers[i])[j]) != Bson(None, false) <==> Succeeded(b, reqs, l, i)
  {
    CountsUp(l.executed, i);
    var a := l.answers[i];
    assert ParamsOf(a)[j] == Bson(Some(a.docs[j]), a.initialized) && a.docs[j] in a.docs;
  }

  // ----- What the client is told -----

  /** The kinds of the out parameters. */
  function OutKinds(n: nat): (ks: seq<Kind>)
    ensures |ks| == n + 1
  { seq(n, _ => BsonKind) + [ErrorKind] }

  lemma {:induction false} KindsAt(ps: seq<Param>, j: nat)
    requires j < |ps|
    ensures Kinds(ps)[j] == KindOf(ps[j])
  {
    if j < |ps| - 1 { KindsAt(ps[..|ps| - 1], j); }
  }

  lemma AnswerKinds(a: Answer)
    ensures Kinds(ParamsOf(a)) == OutKinds(|a.docs|)
  {
    forall j | 0 <= j < |a.docs| + 1 ensures Kinds(ParamsOf(a))[j] == OutKinds(|a.docs|)[j] { KindsAt(ParamsOf(a), j); }
  }

  /** The results of the client's calls of j_backend_operation_from_message on the first `count` answers. */
  datatype Told = Told(results: seq<bool>, cur: nat)

  function Receive(n: nat, slots: seq<bool>, count: nat, data: Bytes): (t: Told)
    requires |slots| == n + 1
    ensures |t.results| == count
  {
    if count == 0 then Told([], 0)
    else
      var t := Receive(n, slots, count - 1, data);
      var s := DecodeCopyAll(OutKinds(n), slots, data, t.cur);
      Told(t.results + [s.ok], s.cur)
  }

  /** Documents that bson_init_static accepts, as far as they are sent. */
  predicate DocsOk(a: Answer) { a.initialized ==> forall d <- a.docs :: d == [] || BsonOk(d) }

  lemma ErrorIsLast(a: Answer)
    ensures HasError(ParamsOf(a)) <==> a.error.Some?
    ensures NoneHollow(ParamsOf(a))
  {
    assert ParamsOf(a)[|a.docs|] == Error(Some(a.error));
  }

  /** What the client makes of one answer: it reads exactly its bytes, and reports failure exactly when the
      answer carries an error. */
  lemma ClientReads(a: Answer, slots: seq<bool>, data: Bytes, cur: nat)
    requires Fits(a) && DocsOk(a) && At(data, cur, EncodeAll(ParamsOf(a))) && |slots| == |a.docs| + 1
    ensures var s := DecodeCopyAll(OutKinds(|a.docs|), slots, data, cur);
            s.cur == cur + |EncodeAll(ParamsOf(a))| && (s.ok <==> a.error.None?)
    ensures !Stops(OutKinds(|a.docs|), data, cur)
  {
    var ps := ParamsOf(a);
    ErrorIsLast(a);
    AnswerKinds(a);
    forall j | 0 <= j < |ps| && ps[j].Bson? && ps[j].initialized && ps[j].doc.Some? && ps[j].doc.value != []
      ensures BsonOk(ps[j].doc.value)
    {
      assert a.docs[j] in a.docs;
    }
    FalseIffError(ps, slots, data, cur);
    NeverStops(ps, data, cur);
  }

  predicate Readable(n: nat, a: Answer) { |a.docs| == n && Fits(a) && DocsOk(a) }

  /** The call of from_message at `cur` reads `len` bytes and returns `ok`. */
  predicate Reads(n: nat, slots: seq<bool>, data: Bytes, cur: nat, len: nat, ok: bool)
    requires |slots| == n + 1
  { var s := DecodeCopyAll(OutKinds(n), slots, data, cur); s.cur == cur + len && s.ok == ok }

  lemma {:induction false} ReceiveAll(pieces: seq<Bytes>, oks: seq<bool>, n: nat, slots: seq<bool>, k: nat, data: Bytes)
    requires |slots| == n + 1 && k <= |pieces| == |oks|
    requires forall i :: 0 <= i < |pieces| ==> Reads(n, slots, data, |Flatten(pieces[..i])|, |pieces[i]|, oks[i])
    ensures Receive(n, slots, k, data) == Told(oks[..k], |Flatten(pieces[..k])|)
    decreases k
  {
    if k > 0 {
      ReceiveAll(pieces, oks, n, slots, k - 1, data);
      ReceiveNext(n, slots, k - 1, data, oks[..k - 1], |Flatten(pieces[..k - 1])|, |pieces[k - 1]|, oks[k - 1]);
      PrefixLengths(pieces, oks, k);
    }
  }

  lemma ReceiveNext(n: nat, slots: seq<bool>, k: nat, data: Bytes, results: seq<bool>, cur: nat, len: nat, ok: bool)
    requires |slots| == n + 1 && Receive(n, slots, k, data) == Told(results, cur) && Reads(n, slots, data, cur, len, ok)
    ensures Receive(n, slots, k + 1, data) == Told(results + [ok], cur + len)
  {}

  lemma PrefixLengths(pieces: seq<Bytes>, oks: seq<bool>, k: nat)
    requires 0 < k <= |pieces| == |oks|
    ensures |Flatten(pieces[..k])| == |Flatten(pieces[..k - 1])| + |pieces[k - 1]| && oks[..k] == oks[..k - 1] + [oks[k - 1]]
  {
    FlattenLast(pieces[..k]);
    assert pieces[..k][..k - 1] == pieces[..k - 1];
  }

  /** The client reads answer `i` where it stands in the reply. */
  lemma ReadsAnswer(answers: seq<Answer>, n: nat, slots: seq<bool>, i: nat)
    requires |slots| == n + 1 && i < |answers| && Readable(n, answers[i])
    ensures Reads(n, slots, Reply(answers), |Flatten(AllEncoded(answers)[..i])|, |Encoded(answers[i])|, answers[i].error.None?)
  {
    var data := Reply(answers);
    assert data[0..0 + |data|] == data;
    PieceStands(data, 0, AllEncoded(answers), i);
    ClientReads(answers[i], slots, data, |Flatten(AllEncoded(answers)[..i])|);
  }

  lemma {:induction false} AnswersReadable(at: Atomicity, b: Backend, reqs: seq<seq<Param>>, n: nat, a: Answer)
    requires GoodBackend(b, n) && GoodStart(b, n) && a in Rounds(at, b, reqs, n).answers
    ensures Readable(n, a)
  {
    var l := Rounds(at, b, reqs, n);
    var i :| 0 <= i < |reqs| && l.answers[i] == a;
    DocsKept(at, b, reqs, n, i);
    ExecutedThenSkipped(at, b, reqs, n);
    assert GoodOutcome(b.run(i, reqs[i]), n);
  }

  /** What the client is told about every request. */
  ghost function Reports(at: Atomicity, b: Backend, reqs: seq<seq<Param>>, n: nat, slots: seq<bool>): (r: seq<bool>)
    requires |slots| == n + 1
    ensures |r| == |reqs|
  { Receive(n, slots, |reqs|, Reply(Rounds(at, b, reqs, n).answers)).results }

  /** Which of the answers carry no error? */
  function ErrorFree(answers: seq<Answer>): (r: seq<bool>)
    ensures |r| == |answers| && forall i :: 0 <= i < |answers| ==> (r[i] <==> answers[i].error.None?)
  { seq(|answers|, i requires 0 <= i < |answers| => answers[i].error.None?) }

  lemma {:induction false} ReportsAreErrors(at: Atomicity, b: Backend, reqs: seq<seq<Param>>, n: nat, slots: seq<bool>)
    requires GoodBackend(b, n) && GoodStart(b, n) && |slots| == n + 1
    ensures Reports(at, b, reqs, n, slots) == ErrorFree(Rounds(at, b, reqs, n).answers)
  {
    var answers := Rounds(at, b, reqs, n).answers;
    var pieces, oks := AllEncoded(answers), ErrorFree(answers);
    forall k | 0 <= k < |pieces| ensures Reads(n, slots, Reply(answers), |Flatten(pieces[..k])|, |pieces[k]|, oks[k]) {
      AnswersReadable(at, b, reqs, n, answers[k]);
      ReadsAnswer(answers, n, slots, k);
    }
    ReceiveAll(pieces, oks, n, slots, |answers|, Reply(answers));
    assert oks[..|oks|] == oks;
  }

  /** The backend sets an error exactly when it fails. */
  ghost predicate ErrorOnFailure(b: Backend) {
    forall i: nat, ps: seq<Param> {:trigger b.run(i, ps)} :: b.run(i, ps).error.Some? <==> !b.run(i, ps).ok
  }

  /** In a started batch, the client is told the truth about a request if and only if no request before it
      failed: a request that is skipped after a failure is answered with a copy of the batch start's error,
      and there is none, so the client takes it for a success. */
  lemma {:induction false} ToldTheTruthIff(b: Backend, reqs: seq<seq<Param>>, n: nat, slots: seq<bool>, i: nat)
    requires GoodBackend(b, n) && GoodStart(b, n) && b.start.None? && ErrorOnFailure(b) && |slots| == n + 1 && i < |reqs|
    ensures (Reports(PerBatch, b, reqs, n, slots)[i] <==> Succeeded(b, reqs, Rounds(PerBatch, b, reqs, n), i))
       <==> forall j :: 0 <= j < i ==> b.run(j, reqs[j]).ok
  {
    ReportsAreErrors(PerBatch, b, reqs, n, slots);
    ExecutedThenSkipped(PerBatch, b, reqs, n);
    TruthIff(b, reqs, n, Rounds(PerBatch, b, reqs, n), i);
  }

  lemma TruthIff(b: Backend, reqs: seq<seq<Param>>, n: nat, l: Loop, i: nat)
    requires Split(b, reqs, n, l) && Ends(PerBatch, b, reqs, l) && b.start.None? && ErrorOnFailure(b) && i < |reqs|
    ensures (l.answers[i].error.None? <==> Succeeded(b, reqs, l, i)) <==> forall j :: 0 <= j < i ==> b.run(j, reqs[j]).ok
  {
    CountsUp(l.executed, i);
    var m := |l.executed|;
    if m <= i { assert 0 <= m - 1 < i && !b.run(m - 1, reqs[m - 1]).ok; }
  }

  /** In a batch that was not started, and for operations on their own, the client is told the truth. */
  lemma {:induction false} ToldTheTruthOtherwise(at: Atomicity, b: Backend, reqs: seq<seq<Param>>, n: nat, slots: seq<bool>, i: nat)
    requires GoodBackend(b, n) && GoodStart(b, n) && ErrorOnFailure(b) && |slots| == n + 1 && i < |reqs|
    requires at.PerOperation? || b.start.Some?
    ensures Reports(at, b, reqs, n, slots)[i] <==> Succeeded(b, reqs, Rounds(at, b, reqs, n), i)
  {
    ReportsAreErrors(at, b, reqs, n, slots);
    ExecutedThenSkipped(at, b, reqs, n);
    CountsUp(Rounds(at, b, reqs, n).executed, i);
  }

  /** Taken together, the answers never deceive: the conjunction that the client returns is TRUE if and only if
      every request was executed and succeeded. */
  lemma {:induction false} WholeIsTrue(at: Atomicity, b: Backend, reqs: seq<seq<Param>>, n: nat, slots: seq<bool>)
    requires GoodBackend(b, n) && GoodStart(b, n) && ErrorOnFailure(b) && |slots| == n + 1
    ensures false !in Reports(at, b, reqs, n, slots)
       <==> (forall i :: 0 <= i < |reqs| ==> Succeeded(b, reqs, Rounds(at, b, reqs, n), i))
  {
    ReportsAreErrors(at, b, reqs, n, slots);
    ExecutedThenSkipped(at, b, reqs, n);
    AllFineIff(at, b, reqs, n, Rounds(at, b, reqs, n));
  }

  lemma AllFineIff(at: Atomicity, b: Backend, reqs: seq<seq<Param>>, n: nat, l: Loop)
    requires Split(b, reqs, n, l) && Ends(at, b, reqs, l) && ErrorOnFailure(b)
    ensures false !in ErrorFree(l.answers) <==> (forall i :: 0 <= i < |reqs| ==> Succeeded(b, reqs, l, i))
  {
    var m, free := |l.executed|, ErrorFree(l.answers);
    forall i | 0 <= i < |reqs| ensures Succeeded(b, reqs, l, i) <==> i < m && free[i] { CountsUp(l.executed, i); }
    if m < |reqs| {
      assert SkippedAnswer(b, n, l.answers[m]);
      assert b.start.None? ==> m > 0 && !b.run(m - 1, reqs[m - 1]).ok && !free[m - 1];
      assert b.start.Some? ==> !free[m];
      assert !Succeeded(b, reqs, l, m);
    }
  }

  /** The first of two requests fails, the second never runs, and the client is told that it succeeded. */
  lemma SkippedLooksSuccessful(req: seq<Param>) returns (b: Backend)
    ensures GoodBackend(b, 0) && GoodStart(b, 0) && b.start.None? && ErrorOnFailure(b)
    ensures Rounds(PerBatch, b, [req, req], 0).executed == [0]
    ensures Reports(PerBatch, b, [req, req], 0, [true]) == [false, true]
  {
    b := FailsFirst();
    FailsFirstIsGood();
    ReportsAreErrors(PerBatch, b, [req, req], 0, [true]);
    TwoRounds(req);
  }

  /** A backend whose first request fails. */
  function FailsFirst(): Backend { Backend(None, FirstFails) }

  function FirstFails(i: nat, ps: seq<Param>): Outcome {
    if i == 0 then Outcome(false, [], Some(Err(1, [], []))) else Outcome(true, [], None)
  }

  lemma TwoRounds(req: seq<Param>)
    ensures var l := Rounds(PerBatch, FailsFirst(), [req, req], 0);
            l.executed == [0] && |l.answers| == 2 && l.answers[0].error.Some? && l.answers[1].error.None?
  {
    var b := FailsFirst();
    assert [req, req][..1] == [req] && [req][..0] == [];
    var l0 := Rounds(PerBatch, b, [], 0);
    var l1 := Rounds(PerBatch, b, [req], 0);
    assert l1 == Round(PerBatch, b, 0, req, l0);
    assert Rounds(PerBatch, b, [req, req], 0) == Round(PerBatch, b, 1, req, l1);
    assert b.run(0, req) == FirstFails(0, req);
  }

  lemma SmallAnswer(mark: bool, error: Option<Err>)
    requires error.Some? ==> error.value == Err(1, [], [])
    ensures Fits(Answer([], mark, error))
  {
    var ps := ParamsOf(Answer([], mark, error));
    assert ps == [Error(Some(error))] && ps[..0] == [];
    assert Announced(ps) == 4 + Length(Error(Some(error)));
  }

  lemma FailsFirstIsGood()
    ensures GoodBackend(FailsFirst(), 0) && GoodStart(FailsFirst(), 0) && ErrorOnFailure(FailsFirst())
  {
    SmallAnswer(false, Some(Err(1, [], [])));
    SmallAnswer(false, None);
    SmallAnswer(true, None);
    assert Zeroed(0) == [];
    var b := FailsFirst();
    forall i: nat, ps: seq<Param> {:trigger b.run(i, ps)}
      ensures b.run(i, ps) == FirstFails(i, ps)
    {}
  }
}
