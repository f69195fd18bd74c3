/**
 The message buffer (lib/core/jmessage.c): integers are appended and read in little-endian order,
 `add_operation` makes room, appending beyond the room fails, and reading beyond the end yields
 nothing and does not move the cursor.
 */
module Message {
  import opened Basics

  /** The integer that four bytes in little-endian order stand for. */
  function FromLe4(b: Bytes): (n: nat)
    requires |b| == 4
    ensures n < TWO_32
  { b[0] as int + 256 * b[1] as int + 65536 * b[2] as int + 16777216 * b[3] as int }

  function Digits(n: nat): (b: Bytes)
    requires n < TWO_32
    ensures |b| == 4
  { [n % 256, n / 256 % 256, n / 65536 % 256, n / 16777216] }

  lemma DigitsRoundTrip(n: nat)
    requires n < TWO_32
    ensures FromLe4(Digits(n)) == n
  {
    var q1, q2 := n / 256, n / 65536;
    assert n == 256 * q1 + n % 256;
    assert q1 == 256 * q2 + q1 % 256;
    assert q2 == 256 * (n / 16777216) + q2 % 256;
  }

  lemma LowDigit(x: byte, y: int, x': byte, y': int)
    requires x + 256 * y == x' + 256 * y'
    ensures x == x' && y == y'
  {}

  lemma FromLe4Injective(a: Bytes, b: Bytes)
    requires |a| == 4 && |b| == 4 && FromLe4(a) == FromLe4(b)
    ensures a == b
  {
    var a1: int, a2: int, a3: int, b1: int, b2: int, b3: int := a[1], a[2], a[3], b[1], b[2], b[3];
    LowDigit(a[0], a1 + 256 * (a2 + 256 * a3), b[0], b1 + 256 * (b2 + 256 * b3));
    LowDigit(a[1], a2 + 256 * a3, b[1], b2 + 256 * b3);
    LowDigit(a[2], a3, b[2], b3);
  }

  lemma FourBytes(n: nat)
    ensures exists b: Bytes :: |b| == 4 && (n < TWO_32 ==> FromLe4(b) == n)
  {
    if n < TWO_32 {
      DigitsRoundTrip(n);
      assert |Digits(n)| == 4;
    } else {
      assert |[0, 0, 0, 0]| == 4;
    }
  }

  /** The four bytes that stand for `n`. (The code has no larger integers to write.) */
  ghost function Le4(n: nat): (b: Bytes)
    ensures |b| == 4 && (n < TWO_32 ==> FromLe4(b) == n)
  {
    FourBytes(n);
    var b: Bytes :| |b| == 4 && (n < TWO_32 ==> FromLe4(b) == n);
    b
  }

  /** The least significant byte comes first. */
  lemma LeastFirst(n: nat)
    requires n < TWO_32
    ensures Le4(n) == [n % 256, n / 256 % 256, n / 65536 % 256, n / 16777216]
  {
    DigitsRoundTrip(n);
    FromLe4Injective(Digits(n), Le4(n));
  }

  /** A C string: no NUL inside. */
  predicate CString(b: Bytes) { forall i :: 0 <= i < |b| ==> b[i] != 0 }

  /** What strlen sees: everything before the first NUL. */
  function CStr(b: Bytes): Bytes { if b == [] || b[0] == 0 then [] else [b[0]] + CStr(b[1..]) }

  /** j_message_get_4 at position `cur`. */
  function Get4(data: Bytes, cur: nat): (r: (nat, nat))
    ensures r.0 < TWO_32 && r.1 >= cur && (cur <= |data| ==> r.1 <= |data|)
  { if cur + 4 <= |data| then (FromLe4(data[cur..cur + 4]), cur + 4) else (0, cur) }

  /** j_message_get_n at position `cur`. */
  function GetN(data: Bytes, cur: nat, n: nat): (r: (Option<Bytes>, nat))
    ensures r.1 >= cur && (cur <= |data| ==> r.1 <= |data|)
  { if cur + n <= |data| then (Some(data[cur..cur + n]), cur + n) else (None, cur) }

  /** The bytes `b` stand at position `cur` of `data`. */
  predicate At(data: Bytes, cur: nat, b: Bytes) { cur + |b| <= |data| && data[cur..cur + |b|] == b }

  lemma AtSplit(data: Bytes, cur: nat, a: Bytes, b: Bytes)
    ensures At(data, cur, a + b) <==> At(data, cur, a) && At(data, cur + |a|, b)
  {
    if cur + |a| + |b| <= |data| {
      assert data[cur..cur + |a + b|] == data[cur..cur + |a|] + data[cur + |a|..cur + |a| + |b|];
      if At(data, cur, a + b) {
        assert data[cur..cur + |a|] == data[cur..cur + |a + b|][..|a|] == a;
        assert data[cur + |a|..cur + |a| + |b|] == data[cur..cur + |a + b|][|a|..] == b;
      }
    }
  }

  /** Where the pieces of a message stand. */
  lemma {:induction false} PieceStands(data: Bytes, cur: nat, pieces: seq<Bytes>, k: nat)
    requires k < |pieces| && At(data, cur, Flatten(pieces))
    ensures At(data, cur + |Flatten(pieces[..k])|, pieces[k])
    decreases |pieces|
  {
    AtSplit(data, cur, pieces[0], Flatten(pieces[1..]));
    if k > 0 {
      PieceStands(data, cur + |pieces[0]|, pieces[1..], k - 1);
      assert pieces[..k][1..] == pieces[1..][..k - 1];
    }
  }

  lemma GetWritten4(data: Bytes, cur: nat, n: nat)
    requires n < TWO_32 && At(data, cur, Le4(n))
    ensures Get4(data, cur) == (n, cur + 4)
  {}

  lemma GetWrittenN(data: Bytes, cur: nat, b: Bytes)
    requires At(data, cur, b)
    ensures GetN(data, cur, |b|) == (Some(b), cur + |b|)
  {}

  /** The growth factor of j_message_extend: the largest power of ten that is not above the count. */
  function Factor(count: nat): (f: nat)
    ensures f >= 1
  { if count > 10 then PowerBelow(count) else 1 }

  function PowerBelow(n: nat): (f: nat)
    ensures f >= 1
  { if n < 10 then 1 else 10 * PowerBelow(n / 10) }

  class Buffer {
    var size: nat      // allocated room
    var data: Bytes    // the message so far; its length is header.length
    var current: nat   // where the next append or get happens
    var count: nat     // header.op_count

    ghost predicate Writing()
      reads this
    { current == |data| <= size }

    constructor ()
      ensures Writing() && data == [] && count == 0
    {
      size, data, current, count := 256, [], 0, 0;
    }

    /** Makes room for one more operation of `length` bytes. */
    method AddOperation(length: nat)
      requires Writing()
      modifies this
      ensures Writing() && data == old(data) && count == old(count) + 1
      ensures size >= |data| + length
    {
      count := count + 1;
      if length != 0 && |data| + length > size {
        var factor := Factor(count);
        assert length * factor >= length;
        size := size + length * factor;
      }
    }

    method AppendN(b: Bytes) returns (ok: bool)
      requires Writing()
      modifies this
      ensures Writing() && size == old(size) && count == old(count)
      ensures ok <==> |old(data)| + |b| <= size
      ensures data == if ok then old(data) + b else old(data)
    {
      ok := current + |b| <= size;
      if ok {
        data := data + b;
        current := current + |b|;
      }
    }

    method Append4(n: nat) returns (ok: bool)
      requires Writing() && n < TWO_32
      modifies this
      ensures Writing() && size == old(size) && count == old(count)
      ensures ok <==> |old(data)| + 4 <= size
      ensures data == if ok then old(data) + Le4(n) else old(data)
    {
      DigitsRoundTrip(n);
      FromLe4Injective(Digits(n), Le4(n));
      ok := AppendN(Digits(n));
    }

    method Read4() returns (n: nat)
      modifies this`current
      ensures (n, current) == Get4(data, old(current))
    {
      if current + 4 <= |data| {
        n := FromLe4(data[current..current + 4]);
        current := current + 4;
      } else {
        n := 0;
      }
    }

    method ReadN(n: nat) returns (b: Option<Bytes>)
      modifies this`current
      ensures (b, current) == GetN(data, old(current), n)
    {
      if current + n <= |data| {
        b := Some(data[current..current + n]);
        current := current + n;
      } else {
        b := None;
      }
    }
  }
}
