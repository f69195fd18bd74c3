/**
 Object reads of the server (the OBJECT_READ case of jd_handle_message, server/loop.c) on the bump allocator
 of lib/core/jmemory-chunk.c: every read is placed into the chunk and attached to a reply that is sent later,
 from the chunk; when the chunk is full, the reply is sent early and the chunk is reset.

 `read` is the backend: what the i-th request reads, at most as many bytes as it asks for, unless the backend
 reports a total of 2^64 - 1, which the POSIX backend does after an interruption before the first byte.
 */
module ObjectRead {
  import opened Basics

  datatype Request = Request(length: nat, offset: nat)

  /** A part of the chunk that is attached to a reply (j_message_add_send). */
  datatype Segment = Segment(start: nat, len: nat)

  /** A reply on the wire: the number of bytes of every answer, then the bytes of all of them. */
  datatype Reply = Reply(counts: seq<nat>, stream: Bytes)

  class MemoryChunk {
    const data: array<byte>
    var current: nat

    ghost predicate Valid()
      reads this
    { current <= data.Length }

    constructor (size: nat)
      requires size > 0
      ensures Valid() && current == 0 && data.Length == size && fresh(data)
    {
      data := new byte[size](_ => 0);
      current := 0;
    }

    /** j_memory_chunk_get: fails exactly when the rest of the chunk is too small. */
    method Get(length: nat) returns (r: Option<nat>)
      requires Valid()
      modifies this`current
      ensures Valid()
      ensures old(current) + length > data.Length ==> r == None && current == old(current)
      ensures old(current) + length <= data.Length ==> r == Some(old(current)) && current == old(current) + length
    {
      if current + length > data.Length {
        return None;
      }
      r := Some(current);
      current := current + length;
    }

    method Reset()
      modifies this`current
      ensures current == 0
    {
      current := 0;
    }
  }

  // ----- What the client must receive -----

  /** What the backend makes of a read: bytes, or a total that an interruption has turned into 2^64 - 1. */
  datatype Outcome = Got(bytes: Bytes) | Overturned

  type Read = (nat, Request) -> Outcome

  /** The read of request `i` reports 2^64 - 1 bytes. */
  predicate Spoils(read: Read, size: nat, rs: seq<Request>, i: nat)
    requires i < |rs|
  { rs[i].length <= size && read(i, rs[i]).Overturned? }

  /** These are the answers to the first requests: to each what the backend has read for it, and nothing if it asks for
      more than the chunk holds. */
  ghost predicate AnswersTo(answers: seq<Bytes>, read: Read, size: nat, rs: seq<Request>) {
    && |answers| <= |rs|
    && (forall i :: 0 <= i < |answers| && rs[i].length > size ==> answers[i] == [])
    && (forall i :: 0 <= i < |answers| && rs[i].length <= size ==> read(i, rs[i]) == Got(answers[i]))
  }

  function Counts(answers: seq<Bytes>): (counts: seq<nat>)
    ensures |counts| == |answers|
  { if answers == [] then [] else Counts(answers[..|answers| - 1]) + [|answers[|answers| - 1]|] }

  function ReplyWith(answers: seq<Bytes>): Reply { Reply(Counts(answers), Flatten(answers)) }

  function RepliesWith(groups: seq<seq<Bytes>>): seq<Reply> {
    if groups == [] then [] else RepliesWith(groups[..|groups| - 1]) + [ReplyWith(groups[|groups| - 1])]
  }

  // ----- A reply that has not been sent yet -----

  /** Segments one after the other below `end`: in bounds and disjoint. */
  predicate Stacked(segs: seq<Segment>, end: nat) {
    && (forall k :: 0 <= k < |segs| ==> segs[k].start + segs[k].len <= end)
    && (forall j, k :: 0 <= j < k < |segs| ==> segs[j].start + segs[j].len <= segs[k].start)
  }

  /** The bytes that sending these segments of `mem` puts on the wire. */
  function Gather(mem: Bytes, segs: seq<Segment>): Bytes
    requires Stacked(segs, |mem|)
  {
    if segs == [] then []
    else
      var s := segs[|segs| - 1];
      Gather(mem, segs[..|segs| - 1]) + mem[s.start..s.start + s.len]
  }

  lemma SliceFrame(mem: Bytes, mem': Bytes, end: nat, lo: nat, hi: nat)
    requires lo <= hi <= end <= |mem| == |mem'| && mem[..end] == mem'[..end]
    ensures mem[lo..hi] == mem'[lo..hi]
  {
    assert mem[lo..hi] == mem[..end][lo..hi];
    assert mem'[lo..hi] == mem'[..end][lo..hi];
  }

  /** Only the memory below `end` matters to segments below `end`. */
  lemma {:induction false} GatherFrame(mem: Bytes, mem': Bytes, segs: seq<Segment>, end: nat)
    requires Stacked(segs, end) && end <= |mem| == |mem'| && mem[..end] == mem'[..end]
    ensures Gather(mem, segs) == Gather(mem', segs)
  {
    if segs != [] {
      var init, s := segs[..|segs| - 1], segs[|segs| - 1];
      StackedInit(segs, end);
      GatherFrame(mem, mem', init, end);
      SliceFrame(mem, mem', end, s.start, s.start + s.len);
    }
  }

  lemma StackedInit(segs: seq<Segment>, end: nat)
    requires segs != [] && Stacked(segs, end)
    ensures Stacked(segs[..|segs| - 1], end) && segs[|segs| - 1].start + segs[|segs| - 1].len <= end
  {}

  datatype Unsent = Unsent(counts: seq<nat>, segs: seq<Segment>)

  /** `u` stands for `answers`: sending it now would send exactly these. */
  ghost predicate StandsFor(u: Unsent, mem: Bytes, end: nat, answers: seq<Bytes>) {
    && end <= |mem|
    && Stacked(u.segs, end)
    && u.counts == Counts(answers)
    && Gather(mem, u.segs) == Flatten(answers)
    && (end > 0 ==> answers != [])
  }

  lemma EmptyStands(mem: Bytes)
    ensures StandsFor(Unsent([], []), mem, 0, [])
  {}

  /** An answer without bytes. */
  lemma AppendEmpty(u: Unsent, mem: Bytes, end: nat, answers: seq<Bytes>)
    requires StandsFor(u, mem, end, answers)
    ensures StandsFor(u.(counts := u.counts + [0]), mem, end, answers + [[]])
  {
    FlattenAppend(answers, []);
    assert (answers + [[]])[..|answers|] == answers;
  }

  /** Announces `n` bytes and attaches them, if there are any. */
  function Attach(u: Unsent, at: nat, n: nat): Unsent {
    Unsent(u.counts + [n], if n > 0 then u.segs + [Segment(at, n)] else u.segs)
  }

  /** A read of `b` into the chunk behind everything that is attached already. */
  lemma AppendRead(u: Unsent, mem: Bytes, mem': Bytes, end: nat, end': nat, answers: seq<Bytes>, b: Bytes)
    requires StandsFor(u, mem, end, answers)
    requires |mem'| == |mem| && end + |b| <= end' <= |mem| && mem'[..end] == mem[..end] && mem'[end..end + |b|] == b
    ensures StandsFor(Attach(u, end, |b|), mem', end', answers + [b])
  {
    GatherFrame(mem, mem', u.segs, end);
    FlattenAppend(answers, b);
    CountsAppend(answers, b);
    GatherAttached(mem', u, end, end', |b|);
    assert |b| == 0 ==> b == [];
  }

  lemma GatherAttached(mem: Bytes, u: Unsent, end: nat, end': nat, n: nat)
    requires Stacked(u.segs, end) && end + n <= end' <= |mem|
    ensures Stacked(Attach(u, end, n).segs, end')
    ensures Gather(mem, Attach(u, end, n).segs) == Gather(mem, u.segs) + mem[end..end + n]
  {
    if n > 0 {
      GatherAppend(mem, u.segs, end, n);
      StackedWider(u.segs + [Segment(end, n)], end + n, end');
    } else {
      StackedWider(u.segs, end, end');
    }
  }

  lemma StackedAppend(segs: seq<Segment>, end: nat, n: nat)
    requires Stacked(segs, end)
    ensures Stacked(segs + [Segment(end, n)], end + n)
  {}

  lemma StackedWider(segs: seq<Segment>, end: nat, end': nat)
    requires Stacked(segs, end) && end <= end'
    ensures Stacked(segs, end')
  {}

  lemma CountsAppend(answers: seq<Bytes>, b: Bytes)
    ensures Counts(answers + [b]) == Counts(answers) + [|b|]
  {
    assert (answers + [b])[..|answers|] == answers;
  }

  lemma GatherAppend(mem: Bytes, segs: seq<Segment>, end: nat, n: nat)
    requires Stacked(segs, end) && end + n <= |mem|
    ensures Stacked(segs + [Segment(end, n)], end + n)
    ensures Gather(mem, segs + [Segment(end, n)]) == Gather(mem, segs) + mem[end..end + n]
  {
    StackedAppend(segs, end, n);
    assert (segs + [Segment(end, n)])[..|segs|] == segs;
  }

  // ----- The request loop -----

  /** j_backend_object_read: puts the bytes read into the buffer. */
  method ReadInto(chunk: MemoryChunk, at: nat, b: Bytes)
    requires at + |b| <= chunk.data.Length
    modifies chunk.data
    ensures chunk.data[..][..at] == old(chunk.data[..])[..at] && chunk.data[..][at..at + |b|] == b
  {
    assert chunk.data[..][..at] == chunk.data[..at];
    for k := 0 to |b|
      invariant chunk.data[..at] == old(chunk.data[..at]) && chunk.data[at..at + k] == b[..k]
    {
      chunk.data[at + k] := b[k];
    }
    assert chunk.data[..][..at] == chunk.data[..at] && chunk.data[..][at..at + |b|] == chunk.data[at..at + |b|];
  }

  /** j_message_send: the attached segments are read from the chunk now. */
  method SendReply(chunk: MemoryChunk, u: Unsent, ghost answers: seq<Bytes>) returns (r: Reply)
    requires chunk.Valid() && StandsFor(u, chunk.data[..], chunk.current, answers)
    ensures r == ReplyWith(answers)
  {
    r := Reply(u.counts, Gather(chunk.data[..], u.segs));
  }

  /** Allocates room for a read that fits into the chunk; sends the reply and resets the chunk first if
      the rest is too small. The second allocation cannot fail. */
  method Allocate(chunk: MemoryChunk, length: nat, u: Unsent, ghost pending: seq<Bytes>)
    returns (at: nat, flushed: Option<Reply>, u': Unsent)
    requires chunk.Valid() && length <= chunk.data.Length && StandsFor(u, chunk.data[..], chunk.current, pending)
    modifies chunk`current
    ensures chunk.Valid() && chunk.current == at + length
    ensures StandsFor(u', chunk.data[..], at, if flushed.Some? then [] else pending)
    ensures flushed.Some? ==> flushed.value == ReplyWith(pending) && pending != []
  {
    u', flushed := u, None;
    var buf := chunk.Get(length);
    if buf.None? {
      var r := SendReply(chunk, u, pending);
      flushed, u' := Some(r), Unsent([], []);
      EmptyStands(chunk.data[..]);
      chunk.Reset();
      buf := chunk.Get(length);
    }
    at := buf.value;
  }

  /** One request that fits into the chunk. */
  method ServeRead(chunk: MemoryChunk, length: nat, b: Bytes, u: Unsent, ghost pending: seq<Bytes>)
    returns (flushed: Option<Reply>, u': Unsent)
    requires chunk.Valid() && |b| <= length <= chunk.data.Length
    requires StandsFor(u, chunk.data[..], chunk.current, pending)
    modifies chunk`current, chunk.data
    ensures chunk.Valid()
    ensures flushed.Some? ==> flushed.value == ReplyWith(pending) && pending != []
    ensures StandsFor(u', chunk.data[..], chunk.current, (if flushed.Some? then [] else pending) + [b])
  {
    var at, u1;
    at, flushed, u1 := Allocate(chunk, length, u, pending);
    ghost var before := if flushed.Some? then [] else pending;
    ghost var mem := chunk.data[..];
    ReadInto(chunk, at, b);
    ghost var mem' := chunk.data[..];
    u' := Attach(u1, at, |b|);
    AppendRead(u1, mem, mem', at, at + length, before, b);
  }

  predicate NoneEmpty(groups: seq<seq<Bytes>>) { forall k :: 0 <= k < |groups| ==> groups[k] != [] }

  /** What the loop has done with the first requests: the replies sent so far carry `groups`, the unsent one
      stands for `pending`, and together they are the answers in order. */
  ghost predicate Served(chunk: MemoryChunk, expected: seq<Bytes>, sent: seq<Reply>, u: Unsent, groups: seq<seq<Bytes>>, pending: seq<Bytes>)
    reads chunk, chunk.data
  {
    && chunk.Valid() && StandsFor(u, chunk.data[..], chunk.current, pending)
    && sent == RepliesWith(groups) && NoneEmpty(groups)
    && Flatten(groups) + pending == expected
    && (expected != [] ==> pending != [])
  }

  method ServeOne(chunk: MemoryChunk, length: nat, b: Bytes, sent: seq<Reply>, u: Unsent,
                  ghost expected: seq<Bytes>, ghost groups: seq<seq<Bytes>>, ghost pending: seq<Bytes>)
    returns (sent': seq<Reply>, u': Unsent, ghost groups': seq<seq<Bytes>>, ghost pending': seq<Bytes>)
    requires if length > chunk.data.Length then b == [] else |b| <= length
    requires Served(chunk, expected, sent, u, groups, pending)
    modifies chunk`current, chunk.data
    ensures Served(chunk, expected + [b], sent', u', groups', pending')
  {
    sent', groups' := sent, groups;
    if length > chunk.data.Length {
      AppendEmpty(u, chunk.data[..], chunk.current, pending);
      u', pending' := u.(counts := u.counts + [0]), pending + [b];
    } else {
      var flushed;
      flushed, u' := ServeRead(chunk, length, b, u, pending);
      pending' := (if flushed.Some? then [] else pending) + [b];
      if flushed.Some? {
        sent', groups' := sent + [flushed.value], groups + [pending];
        FlattenAppend(groups, pending);
        assert groups'[..|groups|] == groups;
      }
    }
  }

  /** OBJECT_READ: on an opened object, the replies carry exactly one answer per request, in order: the bytes that the
      backend has read for it, or none if it asks for more than the chunk holds; and the client recovers them from
      the replies. No reply is empty as long as there is a request; without the object there is one empty reply. All
      this unless some read reports 2^64 - 1 bytes: then a segment is attached that reaches far beyond the chunk. */
  method Handle(chunk: MemoryChunk, found: bool, read: Read, requests: seq<Request>)
    returns (sent: seq<Reply>, ghost groups: seq<seq<Bytes>>, spoiled: Option<Segment>)
    requires chunk.Valid() && chunk.current == 0 && chunk.data.Length < TWO_64 - 1
    requires forall i: nat, r: Request {:trigger read(i, r)} :: read(i, r).Got? ==> |read(i, r).bytes| <= r.length
    modifies chunk`current, chunk.data
    ensures sent == RepliesWith(groups)
    ensures spoiled.Some? <==> found && exists i :: 0 <= i < |requests| && Spoils(read, chunk.data.Length, requests, i)
    ensures spoiled.Some? ==> spoiled.value.start + spoiled.value.len > chunk.data.Length
    ensures spoiled.None? ==> chunk.current == 0
    ensures spoiled.None? && found ==> |Flatten(groups)| == |requests| && AnswersTo(Flatten(groups), read, chunk.data.Length, requests)
    ensures spoiled.None? && found ==> Receive(sent, |requests|) == Some(Flatten(groups))
    ensures spoiled.None? ==> if found && requests != [] then NoneEmpty(groups) else groups == [[]]
  {
    ghost var pending, done;
    var u;
    sent, groups, spoiled := [], [], None;
    if found {
      sent, u, groups, pending, done, spoiled := ServeAll(chunk, read, requests);
      if spoiled.Some? { return; }
      NoneSpoils(done, read, chunk.data.Length, requests);
    } else {
      u, pending, done := Unsent([], []), [], [];
      EmptyStands(chunk.data[..]);
    }
    sent, groups := SendLast(chunk, sent, u, done, groups, pending);
    RecoversAll(groups, |requests|, found);
  }

  /** The loop over the requests, which ends early when a read reports 2^64 - 1 bytes. */
  method ServeAll(chunk: MemoryChunk, read: Read, requests: seq<Request>)
    returns (sent: seq<Reply>, u: Unsent, ghost groups: seq<seq<Bytes>>, ghost pending: seq<Bytes>, ghost done: seq<Bytes>,
             spoiled: Option<Segment>)
    requires chunk.Valid() && chunk.current == 0 && chunk.data.Length < TWO_64 - 1
    requires forall i: nat, r: Request {:trigger read(i, r)} :: read(i, r).Got? ==> |read(i, r).bytes| <= r.length
    modifies chunk`current, chunk.data
    ensures spoiled.None? ==> |done| == |requests| && AnswersTo(done, read, chunk.data.Length, requests)
    ensures spoiled.None? ==> Served(chunk, done, sent, u, groups, pending)
    ensures spoiled.Some? ==> spoiled.value.start + spoiled.value.len > chunk.data.Length && sent == RepliesWith(groups)
    ensures spoiled.Some? ==> |done| < |requests| && Spoils(read, chunk.data.Length, requests, |done|)
  {
    u := Unsent([], []);
    pending, done := [], [];
    sent, groups, spoiled := [], [], None;
    EmptyStands(chunk.data[..]);
    for i := 0 to |requests|
      invariant spoiled.None? && |done| == i && AnswersTo(done, read, chunk.data.Length, requests)
      invariant Served(chunk, done, sent, u, groups, pending)
    {
      var r := requests[i];
      var b: Bytes := [];
      if r.length <= chunk.data.Length {
        var outcome := read(i, r);
        if outcome.Overturned? {
          sent, groups, spoiled := Spoil(chunk, r.length, sent, u, done, groups, pending);
          return;
        }
        b := outcome.bytes;
      }
      sent, u, groups, pending := ServeOne(chunk, r.length, b, sent, u, done, groups, pending);
      AnswersNext(done, b, read, chunk.data.Length, requests);
      done := done + [b];
    }
  }

  lemma AnswersNext(answers: seq<Bytes>, b: Bytes, read: Read, size: nat, rs: seq<Request>)
    requires AnswersTo(answers, read, size, rs) && |answers| < |rs|
    requires var r := rs[|answers|]; if r.length > size then b == [] else read(|answers|, r) == Got(b)
    ensures AnswersTo(answers + [b], read, size, rs)
  {}

  lemma NoneSpoils(answers: seq<Bytes>, read: Read, size: nat, rs: seq<Request>)
    requires AnswersTo(answers, read, size, rs)
    ensures forall i :: 0 <= i < |answers| ==> !Spoils(read, size, rs, i)
  {}

  lemma RecoversAll(groups: seq<seq<Bytes>>, n: nat, found: bool)
    requires found ==> |Flatten(groups)| == n && (if n > 0 then NoneEmpty(groups) else groups == [[]])
    ensures found ==> Receive(RepliesWith(groups), n) == Some(Flatten(groups))
  {
    if found && n > 0 { ClientRecovers(groups); }
    if groups == [[]] { assert groups[1..] == []; }
  }

  /** A read that reports 2^64 - 1 bytes has them attached. */
  method Spoil(chunk: MemoryChunk, length: nat, sent: seq<Reply>, u: Unsent,
               ghost expected: seq<Bytes>, ghost groups: seq<seq<Bytes>>, ghost pending: seq<Bytes>)
    returns (sent': seq<Reply>, ghost groups': seq<seq<Bytes>>, spoiled: Option<Segment>)
    requires length <= chunk.data.Length < TWO_64 - 1 && Served(chunk, expected, sent, u, groups, pending)
    modifies chunk`current
    ensures sent' == RepliesWith(groups') && spoiled.Some?
    ensures spoiled.value.start + spoiled.value.len > chunk.data.Length
  {
    var at, flushed, u1 := Allocate(chunk, length, u, pending);
    sent', groups' := sent, groups;
    if flushed.Some? {
      sent', groups' := sent + [flushed.value], groups + [pending];
      assert groups'[..|groups|] == groups;
    }
    spoiled := Some(Segment(at, TWO_64 - 1));
  }

  /** Sends the last reply and resets the chunk for the next message. */
  method SendLast(chunk: MemoryChunk, sent: seq<Reply>, u: Unsent,
                  ghost expected: seq<Bytes>, ghost groups: seq<seq<Bytes>>, ghost pending: seq<Bytes>)
    returns (sent': seq<Reply>, ghost groups': seq<seq<Bytes>>)
    requires Served(chunk, expected, sent, u, groups, pending)
    modifies chunk`current
    ensures chunk.current == 0 && sent' == RepliesWith(groups') && Flatten(groups') == expected
    ensures if expected != [] then NoneEmpty(groups') else groups' == [[]]
  {
    assert expected == [] ==> groups == [];
    var last := SendReply(chunk, u, pending);
    FlattenAppend(groups, pending);
    sent', groups' := sent + [last], groups + [pending];
    assert groups'[..|groups|] == groups;
    chunk.Reset();
  }

  // ----- The client's side -----

  /** j_object_read_exec: cuts the stream of a reply by the announced counts. */
  function Cut(counts: seq<nat>, stream: Bytes): (r: Option<seq<Bytes>>) {
    if counts == [] then if stream == [] then Some([]) else None
    else
      var n := counts[|counts| - 1];
      if n > |stream| then None
      else
        var init := Cut(counts[..|counts| - 1], stream[..|stream| - n]);
        if init.None? then None else Some(init.value + [stream[|stream| - n..]])
  }

  /** Receives replies until `wanted` operations are done; an empty reply ends the loop with an error. */
  function Receive(replies: seq<Reply>, wanted: int): Option<seq<Bytes>> {
    if wanted <= 0 then Some([])
    else if replies == [] || replies[0].counts == [] then None
    else
      var first := Cut(replies[0].counts, replies[0].stream);
      var rest := Receive(replies[1..], wanted - |replies[0].counts|);
      if first.None? || rest.None? then None else Some(first.value + rest.value)
  }

  lemma {:induction false} CutReply(answers: seq<Bytes>)
    ensures Cut(Counts(answers), Flatten(answers)) == Some(answers)
  {
    if answers != [] {
      var init, last := answers[..|answers| - 1], answers[|answers| - 1];
      CutReply(init);
      FlattenLast(answers);
      CutLast(Counts(init), Flatten(init), init, last);
      assert Counts(answers) == Counts(init) + [|last|] && init + [last] == answers;
    }
  }

  lemma CutLast(counts: seq<nat>, stream: Bytes, init: seq<Bytes>, last: Bytes)
    requires Cut(counts, stream) == Some(init)
    ensures Cut(counts + [|last|], stream + last) == Some(init + [last])
  {
    assert (counts + [|last|])[..|counts|] == counts;
    assert (stream + last)[..|stream|] == stream && (stream + last)[|stream|..] == last;
  }

  lemma {:induction false} RepliesHead(groups: seq<seq<Bytes>>)
    requires groups != []
    ensures RepliesWith(groups) == [ReplyWith(groups[0])] + RepliesWith(groups[1..])
  {
    if |groups| == 1 {
      assert groups[..0] == [] && groups[1..] == [];
    } else {
      var init, last := groups[..|groups| - 1], groups[|groups| - 1];
      RepliesHead(init);
      assert init[1..] == groups[1..][..|groups| - 2] && groups[1..][|groups| - 2] == last;
      assert RepliesWith(groups[1..]) == RepliesWith(init[1..]) + [ReplyWith(last)];
    }
  }

  /** End to end: from the replies of `Handle`, the client recovers the answer to every request. */
  lemma {:induction false} ClientRecovers(groups: seq<seq<Bytes>>)
    requires NoneEmpty(groups)
    ensures Receive(RepliesWith(groups), |Flatten(groups)|) == Some(Flatten(groups))
  {
    if groups != [] {
      RepliesHead(groups);
      CutReply(groups[0]);
      ClientRecovers(groups[1..]);
      var replies := RepliesWith(groups);
      assert replies[1..] == RepliesWith(groups[1..]);
    }
  }
}
