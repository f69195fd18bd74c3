/**
 The loops of backend_read and backend_write in backend/object/posix.c, which repeat pread and pwrite until
 everything is transferred. The kernel decides how much each call transfers, and it may fail or interrupt it.

 An interrupted call returns -1, which the loops add to their 64-bit total: the last byte is transferred once
 more, unless there is none yet and the total wraps around.
 */
module PosixIo {
  import opened Basics

  /** The answer of the kernel to one call: bytes moved, none at the end of the file, an error, or EINTR. */
  datatype Answer = Moved(n: nat) | Nothing | Failed | Interrupted

  /** The total after an answer. */
  function Count(total: nat, a: Answer): nat {
    match a
    case Moved(n) => (total + n) % TWO_64
    case Interrupted => (total - 1) % TWO_64
    case _ => total
  }

  predicate GoesOn(a: Answer) { a.Moved? || a.Interrupted? }

  /** An interruption comes when nothing has been transferred, or nothing is left of it. */
  predicate Overturned(total: nat, answers: seq<Answer>)
    decreases |answers|
  {
    answers != [] && ((answers[0].Interrupted? && total == 0) || Overturned(Count(total, answers[0]), answers[1..]))
  }

  /** The bytes moved by all these calls, less one for every interruption. */
  function Net(answers: seq<Answer>): int {
    if answers == [] then 0
    else (match answers[0] case Moved(n) => n case Interrupted => -1 case _ => 0) + Net(answers[1..])
  }

  // ----- Reading -----

  /** What pread may answer: it delivers nothing at the end of the file only. */
  predicate MayRead(file: Bytes, length: nat, at: nat, total: nat, a: Answer) {
    match a
    case Moved(n) => 0 < n <= length - total && at + total + n <= |file|
    case Nothing => at + total >= |file|
    case _ => true
  }

  /** A sequence of answers to the calls that the loop makes. It may stop short of the end of the loop. */
  predicate ReadAnswers(file: Bytes, length: nat, at: nat, total: nat, answers: seq<Answer>)
    decreases |answers|
  {
    answers == [] ||
    (&& total < length && MayRead(file, length, at, total, answers[0])
     && if GoesOn(answers[0]) then ReadAnswers(file, length, at, Count(total, answers[0]), answers[1..])
        else |answers| == 1)
  }

  /** The bytes that pread delivers. */
  method Pread(file: Bytes, buffer: array<byte>, start: nat, n: nat, from: nat)
    requires start + n <= buffer.Length && from + n <= |file|
    modifies buffer
    ensures buffer[..start] == old(buffer[..start])
    ensures buffer[start..start + n] == file[from..from + n]
  {
    forall i | start <= i < start + n { buffer[i] := file[from + i - start]; }
  }

  lemma Joined(file: Bytes, buffer: Bytes, from: nat, total: nat, n: nat)
    requires from + total + n <= |file| && total + n <= |buffer|
    requires buffer[..total] == file[from..from + total]
    requires buffer[total..total + n] == file[from + total..from + total + n]
    ensures buffer[..total + n] == file[from..from + total + n]
  {
    assert buffer[..total + n] == buffer[..total] + buffer[total..total + n];
  }

  /** What has been read so far stands at the start of the buffer. */
  ghost predicate HasRead(file: Bytes, buffer: array<byte>, offset: nat, total: nat)
    reads buffer
  { total > 0 ==> offset + total <= |file| && total <= buffer.Length && buffer[..total] == file[offset..offset + total] }

  /** One call that moves bytes. */
  method ReadMore(file: Bytes, buffer: array<byte>, offset: nat, total: nat, n: nat)
    requires total + n <= buffer.Length && 0 < n && offset + total + n <= |file| && HasRead(file, buffer, offset, total)
    modifies buffer
    ensures HasRead(file, buffer, offset, total + n)
  {
    assert buffer[..total] == file[offset..offset + total];
    Pread(file, buffer, total, n, offset + total);
    Joined(file, buffer[..], offset, total, n);
  }

  lemma ReadLess(file: Bytes, buffer: array<byte>, offset: nat, total: nat)
    requires total > 0 && HasRead(file, buffer, offset, total)
    ensures HasRead(file, buffer, offset, total - 1)
  {
    assert buffer[..total - 1] == buffer[..total][..total - 1];
    assert file[offset..offset + total - 1] == file[offset..offset + total][..total - 1];
  }

  /**
   What is reported as read is what the calls have moved, and it stands in the file; a short read that did not fail has reached the end of
   the file. The total is wrong if and only if an interruption comes at a total of zero.
   `waiting`: the kernel has not answered the last call.
   */
  method Read(file: Bytes, buffer: array<byte>, length: nat, offset: nat, answers: seq<Answer>)
    returns (total: nat, ok: bool, waiting: bool)
    requires length <= buffer.Length && length < TWO_64 - 1 && ReadAnswers(file, length, offset, 0, answers)
    modifies buffer
    ensures total == TWO_64 - 1 <==> Overturned(0, answers)
    ensures !Overturned(0, answers) ==> total == Net(answers) <= length && HasRead(file, buffer, offset, total)
    ensures !Overturned(0, answers) && total < length ==>
              waiting || (answers != [] && answers[|answers| - 1] == Failed) || offset + total >= |file|
    ensures ok <==> total == length
  {
    total, waiting := 0, false;
    var left := answers;
    while total < length
      invariant ReadAnswers(file, length, offset, total, left) && !waiting
      invariant |left| <= |answers| && left == answers[|answers| - |left|..]
      invariant total <= length ==> HasRead(file, buffer, offset, total)
      invariant total <= length ==> (Overturned(0, answers) <==> Overturned(total, left)) && total + Net(left) == Net(answers)
      invariant total > length ==> total == TWO_64 - 1 && Overturned(0, answers) && left == []
      decreases |left|
    {
      if left == [] {
        waiting := true;
        break;
      }
      var answer := left[0];
      if !GoesOn(answer) { break; }
      if answer.Moved? {
        ReadMore(file, buffer, offset, total, answer.n);
      } else if total > 0 {
        ReadLess(file, buffer, offset, total);
      }
      CountIs(total, length, answer);
      total := Count(total, answer);
      left := left[1..];
    }
    ok := total == length;
  }

  /** Adding -1 to the total steps back by one byte, or to the largest number there is. */
  lemma CountIs(total: nat, length: nat, a: Answer)
    requires total < length < TWO_64 && (a.Moved? ==> total + a.n <= length)
    ensures Count(total, a) == match a
                               case Moved(n) => total + n
                               case Interrupted => if total == 0 then TWO_64 - 1 else total - 1
                               case _ => total
  {}

  // ----- Writing -----

  function Max(a: nat, b: nat): nat { if a < b then b else a }

  /** A file after `d` has been written at `at`; a gap is filled with zeros. */
  function Overwrite(f: Bytes, at: nat, d: Bytes): (g: Bytes)
  {
    if d == [] then f
    else seq(Max(|f|, at + |d|), i requires 0 <= i =>
           if at <= i < at + |d| then d[i - at] else if i < |f| then f[i] else 0)
  }

  /** What is written stands at its place, and the rest of the file is as it was. */
  lemma WrittenStands(f: Bytes, at: nat, d: Bytes)
    requires d != []
    ensures var g := Overwrite(f, at, d);
            && |g| == Max(|f|, at + |d|) && g[at..at + |d|] == d
            && (forall i :: 0 <= i < |f| && !(at <= i < at + |d|) ==> g[i] == f[i])
            && (forall i :: |f| <= i < at ==> g[i] == 0)
  {
    var g := Overwrite(f, at, d);
    forall i | 0 <= i < |d| ensures g[at..at + |d|][i] == d[i] {}
  }

  /** Writing a stretch that starts within what has been written extends it, or repeats part of it. */
  lemma OverwriteMore(f: Bytes, at: nat, d: Bytes, written: nat, from: nat, n: nat)
    requires from <= written <= |d| && from + n <= |d|
    ensures Overwrite(Overwrite(f, at, d[..written]), at + from, d[from..from + n])
         == Overwrite(f, at, d[..Max(written, from + n)])
  {
    if n == 0 { return; }
    var g := Overwrite(f, at, d[..written]);
    var a, b := Overwrite(g, at + from, d[from..from + n]), Overwrite(f, at, d[..Max(written, from + n)]);
    assert |a| == |b|;
    forall i | 0 <= i < |a| ensures a[i] == b[i] {}
  }

  predicate MayWrite(length: nat, total: nat, a: Answer) { a.Moved? ==> a.n <= length - total }

  /** A call that moves nothing is repeated when errno happens to be EINTR: that is `Moved(0)`. */
  predicate WriteAnswers(length: nat, total: nat, answers: seq<Answer>)
    decreases |answers|
  {
    answers == [] ||
    (&& total < length && MayWrite(length, total, answers[0])
     && if GoesOn(answers[0]) then WriteAnswers(length, Count(total, answers[0]), answers[1..])
        else |answers| == 1)
  }

  class File {
    var contents: Bytes

    /** One call that moves bytes. */
    method WriteMore(ghost was: Bytes, data: Bytes, offset: nat, total: nat, n: nat, ghost written: nat)
      requires total <= written <= |data| && total + n <= |data| && contents == Overwrite(was, offset, data[..written])
      modifies this
      ensures contents == Overwrite(was, offset, data[..Max(written, total + n)])
    {
      OverwriteMore(was, offset, data, written, total, n);
      contents := Overwrite(contents, offset + total, data[total..total + n]);
    }

    /**
     At least what is reported as written has been written, at its place, and nothing else has changed; when
     everything is reported as written, it is. The total is wrong if and only if an interruption comes at a
     total of zero.
     */
    method Write(data: Bytes, offset: nat, answers: seq<Answer>) returns (total: nat, ok: bool, waiting: bool, ghost written: nat)
      requires |data| < TWO_64 - 1 && WriteAnswers(|data|, 0, answers)
      modifies this
      ensures written <= |data| && contents == Overwrite(old(contents), offset, data[..written])
      ensures total == TWO_64 - 1 <==> Overturned(0, answers)
      ensures !Overturned(0, answers) ==> total == Net(answers) <= written
      ensures ok <==> total == |data|
      ensures ok ==> contents == Overwrite(old(contents), offset, data)
      ensures !Overturned(0, answers) && total < |data| ==>
                waiting || (answers != [] && !GoesOn(answers[|answers| - 1]))
    {
      total, waiting, written := 0, false, 0;
      var left := answers;
      while total < |data|
        invariant WriteAnswers(|data|, total, left) && !waiting
        invariant |left| <= |answers| && left == answers[|answers| - |left|..]
        invariant written <= |data| && contents == Overwrite(old(contents), offset, data[..written])
        invariant total <= |data| ==> total <= written && (Overturned(0, answers) <==> Overturned(total, left))
        invariant total <= |data| ==> total + Net(left) == Net(answers)
        invariant total > |data| ==> total == TWO_64 - 1 && Overturned(0, answers) && left == []
        decreases |left|
      {
        if left == [] {
          waiting := true;
          break;
        }
        var answer := left[0];
        if !GoesOn(answer) { break; }
        CountIs(total, |data|, answer);
        if answer.Moved? {
          WriteMore(old(contents), data, offset, total, answer.n, written);
          written := Max(written, total + answer.n);
        }
        total := Count(total, answer);
        left := left[1..];
      }
      ok := total == |data|;
      assert written == |data| ==> data[..written] == data;
    }
  }

  /** The first call of a read that is interrupted: the caller is told of 2^64 - 1 bytes. */
  lemma InterruptedAtOnce()
    ensures Overturned(0, [Interrupted]) && Count(0, Interrupted) == TWO_64 - 1
  {}
}
