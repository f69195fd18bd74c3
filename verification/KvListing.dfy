/**
 Listing key-value pairs across the network: the replies that the servers write (the KV_GET_ALL and
 KV_GET_BY_PREFIX cases of server/loop.c) and the client's iterator over the replies of all servers
 (lib/kv/jkv-iterator.c). A reply is a run of pairs, the length of the value first, and a length of zero
 at the end.
 */
module KvListing {
  import opened Basics
  import opened Message
  import opened KvScan

  /** What the wire can carry: a 32-bit length, and keys that end at their NUL. */
  predicate Fits(r: Row) { |r.value| < TWO_32 && CString(r.key) }

  predicate AllFit(rows: seq<Row>) { forall r <- rows :: Fits(r) }

  ghost function WireOne(r: Row): Bytes { Le4(|r.value|) + r.value + (r.key + [0]) }

  /** The reply to a listing. */
  ghost function Wire(rows: seq<Row>): Bytes {
    if rows == [] then Le4(0) else WireOne(rows[0]) + Wire(rows[1..])
  }

  // ----- The server -----

  /** The rows as the caller of a scan gets them. */
  ghost function AllVisible(rows: seq<Row>, nsLen: nat): (v: seq<Row>)
    ensures |v| == |rows|
  {
    if rows == [] then []
    else [if nsLen < |rows[0].key| then Visible(rows[0], nsLen) else rows[0]] + AllVisible(rows[1..], nsLen)
  }

  ghost function Answer(scan: Scan): seq<Row>
    reads scan.Object()
    requires scan.Valid()
  { AllVisible(scan.ToCome(), scan.NamespaceLen()) }

  method NextPair(scan: Scan) returns (row: Option<Row>)
    requires scan.Valid()
    modifies scan.Object()
    ensures row.None? <==> old(Answer(scan)) == []
    ensures row.Some? ==> scan.Valid() && row.value == old(Answer(scan))[0] && Answer(scan) == old(Answer(scan))[1..]
  {
    row := scan.Iterate();
  }

  /** One pair is written into the room that is made for it. */
  method AppendPair(reply: Buffer, r: Row)
    requires reply.Writing() && Fits(r)
    modifies reply
    ensures reply.Writing() && reply.data == old(reply.data) + WireOne(r)
  {
    reply.AddOperation(4 + |r.value| + (|r.key| + 1));
    ghost var before := reply.data;
    var ok := reply.Append4(|r.value|);
    ok := reply.AppendN(r.value);
    ok := reply.AppendN(r.key + [0]);
    assert reply.data == before + Le4(|r.value|) + r.value + (r.key + [0]) == before + WireOne(r);
  }

  /** The server drains the scan into one reply. */
  method Reply(scan: Scan) returns (reply: Buffer)
    requires scan.Valid() && AllFit(Answer(scan))
    modifies scan.Object()
    ensures fresh(reply) && reply.data == Wire(old(Answer(scan)))
  {
    reply := new Buffer();
    ghost var rows := Answer(scan);
    ghost var all := Wire(rows);
    var next := NextPair(scan);
    while next.Some?
      invariant fresh(reply) && reply != scan.Object() && reply.Writing()
      invariant AllFit(rows) && all == reply.data + Wire(rows)
      invariant next.None? <==> rows == []
      invariant next.Some? ==> scan.Valid() && next.value == rows[0] && Answer(scan) == rows[1..]
      decreases |rows|
    {
      FitsHead(rows);
      WireHead(rows, reply.data);
      AppendPair(reply, next.value);
      rows := rows[1..];
      next := NextPair(scan);
    }
    reply.AddOperation(4);
    var _ := reply.Append4(0);
  }

  lemma WireHead(rows: seq<Row>, before: Bytes)
    requires rows != []
    ensures before + Wire(rows) == before + WireOne(rows[0]) + Wire(rows[1..])
  {}

  lemma FitsHead(rows: seq<Row>)
    requires rows != [] && AllFit(rows)
    ensures Fits(rows[0]) && AllFit(rows[1..])
  {
    assert rows[0] in rows && forall r <- rows[1..] :: r in rows;
  }

  // ----- The client -----

  /** The rows before the first empty value. */
  function Seen(rows: seq<Row>): seq<Row> {
    if rows == [] || rows[0].value == [] then [] else [rows[0]] + Seen(rows[1..])
  }

  function SeenAll(lists: seq<seq<Row>>): seq<Row> { if lists == [] then [] else Seen(lists[0]) + SeenAll(lists[1..]) }

  /** A string that stands somewhere in a message is read up to its NUL. */
  lemma {:induction false} ReadString(data: Bytes, cur: nat, s: Bytes)
    requires CString(s) && At(data, cur, s + [0])
    ensures CStr(data[cur..]) == s
    decreases |s|
  {
    assert data[cur..][..|s| + 1] == s + [0];
    if s == [] {
      assert data[cur] == 0;
    } else {
      assert data[cur] == s[0];
      AtSplit(data, cur, [s[0]], s[1..] + [0]);
      assert [s[0]] + (s[1..] + [0]) == s + [0];
      ReadString(data, cur + 1, s[1..]);
      assert data[cur..][1..] == data[cur + 1..];
    }
  }

  /** Reading at `cur` finds the pair `r`. */
  predicate ReadsPair(data: Bytes, cur: nat, r: Row) {
    && Get4(data, cur) == (|r.value|, cur + 4)
    && cur + 4 + |r.value| <= |data|
    && data[cur + 4..cur + 4 + |r.value|] == r.value
    && CStr(data[cur + 4 + |r.value|..]) == r.key
  }

  lemma PairLayout(data: Bytes, cur: nat, r: Row)
    requires Fits(r) && At(data, cur, WireOne(r))
    ensures ReadsPair(data, cur, r)
  {
    AtSplit(data, cur, Le4(|r.value|) + r.value, r.key + [0]);
    AtSplit(data, cur, Le4(|r.value|), r.value);
    GetWritten4(data, cur, |r.value|);
    ReadString(data, cur + 4 + |r.value|, r.key);
  }

  lemma PairThenRest(data: Bytes, cur: nat, r: Row, rest: Bytes)
    requires Fits(r) && At(data, cur, WireOne(r) + rest)
    ensures ReadsPair(data, cur, r) && At(data, cur + 4 + |r.value| + |r.key| + 1, rest)
  {
    assert |WireOne(r)| == 4 + |r.value| + |r.key| + 1;
    AtSplit(data, cur, WireOne(r), rest);
    PairLayout(data, cur, r);
  }

  /** Either the next pair stands at the cursor or the final zero does. */
  lemma EndOrPair(data: Bytes, cur: nat, rows: seq<Row>)
    requires AllFit(rows) && At(data, cur, Wire(rows))
    ensures if rows == [] then Get4(data, cur) == (0, cur + 4)
            else
              && ReadsPair(data, cur, rows[0]) && AllFit(rows[1..])
              && At(data, cur + 4 + |rows[0].value| + |rows[0].key| + 1, Wire(rows[1..]))
  {
    if rows == [] {
      GetWritten4(data, cur, 0);
    } else {
      FitsHead(rows);
      PairThenRest(data, cur, rows[0], Wire(rows[1..]));
    }
  }

  class Iterator {
    const replies: seq<Bytes>
    ghost const lists: seq<seq<Row>>
    var current: nat        // replies_cur
    var at: nat             // the read position in that reply
    var key: Bytes
    var value: Bytes
    ghost var left: seq<Row>

    /** The replies that have not been looked at. */
    ghost predicate Untouched()
      reads this
    {
      && |replies| == |lists| && current < |replies|
      && forall i :: current < i < |lists| ==> replies[i] == Wire(lists[i]) && AllFit(lists[i])
    }

    /** The rest of the current reply carries the rows that are left of it. */
    ghost predicate Carries()
      reads this
      requires current < |replies|
    { AllFit(left) && At(replies[current], at, Wire(left)) && at + |Wire(left)| == |replies[current]| }

    ghost predicate Valid()
      reads this
    { Untouched() && Carries() }

    /** The last reply has been read to its end. */
    ghost predicate Ended()
      reads this
    { 0 < |replies| == current + 1 && at == |replies[current]| }

    ghost function Later(): seq<Row>
      reads this
      requires Untouched()
    { SeenAll(lists[current + 1..]) }

    ghost function ToCome(): seq<Row>
      reads this
      requires Valid()
    { Seen(left) + Later() }

    /** One reply per server; there is at least one server. */
    constructor (replies: seq<Bytes>, ghost lists: seq<seq<Row>>)
      requires |replies| == |lists| > 0
      requires forall i :: 0 <= i < |lists| ==> replies[i] == Wire(lists[i]) && AllFit(lists[i])
      ensures Valid() && ToCome() == SeenAll(lists)
    {
      this.replies, this.lists, left := replies, lists, lists[0];
      current, at, key, value := 0, 0, [], [];
      new;
      assert replies[0][0..0 + |replies[0]|] == replies[0];
    }

    /** One pair of the current reply, or its end. */
    method ReadPair() returns (found: bool)
      requires current < |replies| && (Carries() || Ended())
      modifies this`at, this`key, this`value, this`left
      ensures found ==> old(Carries()) && Carries() && Seen(old(left)) == [Row(key, value)] + Seen(left)
      ensures !found ==> left == old(left) && (old(Carries()) ==> Seen(left) == [])
      ensures !found && (left == [] || old(Ended())) ==> at == |replies[current]|
    {
      var reply := replies[current];
      if Carries() { EndOrPair(reply, at, left); }
      var len := Get4(reply, at).0;
      var c := Get4(reply, at).1;
      at := c;
      found := len > 0;
      if found {
        value := reply[c..c + len];
        var str := CStr(reply[c + len..]);
        key := str;
        at := c + len + |str| + 1;
        left := left[1..];
      }
    }

    method TryPair() returns (found: bool)
      requires Valid() || Ended()
      modifies this`at, this`key, this`value, this`left
      ensures old(Untouched()) ==> Untouched()
      ensures found ==> old(Valid()) && Valid() && [Row(key, value)] + ToCome() == old(ToCome())
      ensures !found && old(Valid()) ==> Later() == old(ToCome()) && (left == [] ==> at == |replies[current]|)
      ensures !old(Valid()) ==> !found && Ended()
    {
      ghost var valid, later := Valid(), if Untouched() then Later() else [];
      found := ReadPair();
      if valid {
        assert Later() == later;
        if found { Associate([Row(key, value)], Seen(left), later); }
      }
    }

    /** The next pair of this reply or, after its end, of the next one. The end is reported for ever, if the last
        reply has been read to its end; `left` says what an empty value has hidden of it. */
    method Next() returns (more: bool)
      requires Valid() || Ended()
      modifies this
      ensures old(Valid()) ==> (more <==> old(ToCome()) != [])
      ensures more ==> old(Valid()) && Valid() && [Row(key, value)] + ToCome() == old(ToCome())
      ensures old(Valid()) && !more && left == [] ==> Ended()
      ensures !old(Valid()) ==> !more && Ended()
    {
      more := TryPair();
      if !more && current < |replies| - 1 {
        more := GoOn();
      }
    }

    /** Goes on to the next replies until one delivers a pair. */
    method GoOn() returns (more: bool)
      requires Untouched() && current < |replies| - 1
      modifies this
      ensures more <==> old(Later()) != []
      ensures more ==> Valid() && [Row(key, value)] + ToCome() == old(Later())
      ensures !more && left == [] ==> Ended()
    {
      ghost var later := Later();
      more := false;
      while !more && current < |replies| - 1
        invariant Untouched()
        invariant more ==> Valid() && [Row(key, value)] + ToCome() == later
        invariant !more ==> Later() == later
        invariant !more && left == [] && current == |replies| - 1 ==> at == |replies[current]|
        decreases |replies| - current
      {
        Advance();
        more := TryPair();
      }
    }

    method Advance()
      requires Untouched() && current < |replies| - 1
      modifies this`current, this`at, this`left
      ensures Valid() && ToCome() == old(Later()) && current == old(current) + 1
    {
      NextList(lists, current + 1, replies[current + 1]);
      current, at := current + 1, 0;
      left := lists[current];
    }
  }

  lemma Associate(a: seq<Row>, b: seq<Row>, c: seq<Row>)
    ensures a + b + c == a + (b + c)
  {}

  lemma NextList(lists: seq<seq<Row>>, i: nat, reply: Bytes)
    requires i < |lists| && reply == Wire(lists[i])
    ensures At(reply, 0, Wire(lists[i])) && SeenAll(lists[i..]) == Seen(lists[i]) + SeenAll(lists[i + 1..])
  {
    assert reply[0..0 + |reply|] == reply;
    assert lists[i..][1..] == lists[i + 1..];
  }

  // ----- What a client misses -----

  /** After the end that an empty value feigns, the next call takes four bytes of the key for a length. */
  lemma MisreadsKey(data: Bytes, cur: nat, rows: seq<Row>)
    requires rows != [] && AllFit(rows) && rows[0].value == [] && |rows[0].key| >= 4 && At(data, cur, Wire(rows))
    ensures Get4(data, cur) == (0, cur + 4) && Get4(data, cur + 4).0 == FromLe4(rows[0].key[..4])
  {
    var r := rows[0];
    FitsHead(rows);
    AtSplit(data, cur, WireOne(r), Wire(rows[1..]));
    AtSplit(data, cur, Le4(0) + [], r.key + [0]);
    AtSplit(data, cur, Le4(0), []);
    GetWritten4(data, cur, 0);
    assert data[cur + 4..cur + 8] == (r.key + [0])[..4] == r.key[..4];
  }

  predicate NoEmpty(rows: seq<Row>) { forall r <- rows :: r.value != [] }

  lemma {:induction false} SeenWhole(rows: seq<Row>)
    ensures |Seen(rows)| <= |rows| && (|Seen(rows)| == |rows| <==> NoEmpty(rows))
    ensures Seen(rows) <= rows
  {
    if rows != [] {
      SeenWhole(rows[1..]);
      assert rows == [rows[0]] + rows[1..];
      assert rows[0] in rows;
    }
  }

  /** The client gets everything that the servers listed if and only if no value is empty. */
  lemma {:induction false} CompleteIff(lists: seq<seq<Row>>)
    ensures |SeenAll(lists)| <= |Flatten(lists)| && (|SeenAll(lists)| == |Flatten(lists)| ==> SeenAll(lists) == Flatten(lists))
    ensures SeenAll(lists) == Flatten(lists) <==> forall rows <- lists :: NoEmpty(rows)
  {
    if lists != [] {
      CompleteIff(lists[1..]);
      SeenWhole(lists[0]);
      assert lists == [lists[0]] + lists[1..];
      assert lists[0] in lists;
      assert |Seen(lists[0])| == |lists[0]| ==> Seen(lists[0]) == lists[0];
    }
  }

  /** An empty value hides what comes after it on the same server. */
  lemma EmptyValueHides(a: Row, b: Row)
    requires a.value == []
    ensures SeenAll([[a, b]]) == []
  {
    assert [[a, b]][1..] == [];
  }
}
