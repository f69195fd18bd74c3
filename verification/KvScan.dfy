/**
 The key-value backends over LevelDB, LMDB and GDBM (backend/kv): all of them store the key `k` of the namespace
 `n` as the NUL-terminated string "n:k". Listing is a seek followed by a scan that stops at the first foreign key
 in the two ordered stores, and a filter over everything, in no particular order, in GDBM.

 A database library is what its manual says it is: a map from byte strings to byte strings whose rows come in the
 order of the bytes (LevelDB, LMDB) or in some order (GDBM). A scan sees one snapshot.
 */
module KvScan {
  import opened Basics
  import opened Message

  const COLON: byte := 58

  datatype Row = Row(key: Bytes, value: Bytes)

  /** The bytes under which a key is stored; the last one is the terminating NUL. */
  function Stored(ns: Bytes, key: Bytes): Bytes { ns + [COLON] + key + [0] }

  /** What the keys of a listing start with. */
  function ScanPrefix(ns: Bytes, prefix: Bytes): Bytes { ns + [COLON] + prefix }

  predicate Terminated(k: Bytes) { k != [] && k[|k| - 1] == 0 && CString(k[..|k| - 1]) }

  // ----- The order of the bytes -----

  predicate Less(a: Bytes, b: Bytes) {
    b != [] && (a == [] || a[0] < b[0] || (a[0] == b[0] && Less(a[1..], b[1..])))
  }

  predicate Sorted(rows: seq<Row>) { forall i, j :: 0 <= i < j < |rows| ==> Less(rows[i].key, rows[j].key) }

  predicate AllTerminated(rows: seq<Row>) { forall r <- rows :: Terminated(r.key) }

  /** Nothing that starts with `p` comes before `p`. */
  lemma {:induction false} PrefixNotLess(k: Bytes, p: Bytes)
    requires p <= k
    ensures !Less(k, p)
  {
    if p != [] { PrefixNotLess(k[1..], p[1..]); }
  }

  /** No string that starts with `p` comes before `p` itself, terminators included. */
  lemma {:induction false} PrefixNotLessNul(k: Bytes, p: Bytes)
    requires p <= k && Terminated(k) && CString(p)
    ensures !Less(k, p + [0])
  {
    if p != [] {
      assert (p + [0])[1..] == p[1..] + [0];
      assert k[1..][..|k[1..]| - 1] == k[..|k| - 1][1..];
      PrefixNotLessNul(k[1..], p[1..]);
    }
  }

  lemma {:induction false} NotLessShorter(k: Bytes, p: Bytes)
    requires !Less(k, p + [0])
    ensures !Less(k, p)
  {
    if p != [] && k != [] {
      assert (p + [0])[1..] == p[1..] + [0];
      if k[0] == p[0] { NotLessShorter(k[1..], p[1..]); }
    }
  }

  /** Once the scan is past the keys that start with `p`, there are no more of them. */
  lemma {:induction false} PastPrefix(k: Bytes, later: Bytes, p: Bytes)
    requires !Less(k, p) && !(p <= k) && Less(k, later)
    ensures !(p <= later)
  {
    if k != [] && k[0] == p[0] == later[0] {
      assert p == [k[0]] + p[1..] && k == [k[0]] + k[1..];
      PastPrefix(k[1..], later[1..], p[1..]);
    }
  }

  // ----- The scan, as a function -----

  /** What a full scan keeps. */
  function Filter(rows: seq<Row>, p: Bytes): seq<Row> {
    if rows == [] then [] else (if p <= rows[0].key then [rows[0]] else []) + Filter(rows[1..], p)
  }

  /** Where a seek leaves the cursor: at the first key that is not below the target. */
  function Seek(rows: seq<Row>, target: Bytes): (i: nat)
    ensures i <= |rows|
    ensures forall j :: 0 <= j < i ==> Less(rows[j].key, target)
    ensures i < |rows| ==> !Less(rows[i].key, target)
  { if rows == [] || !Less(rows[0].key, target) then 0 else 1 + Seek(rows[1..], target) }

  /** The rows up to the first that does not start with `p`. */
  function TakeWhile(rows: seq<Row>, p: Bytes): seq<Row> {
    if rows == [] || !(p <= rows[0].key) then [] else [rows[0]] + TakeWhile(rows[1..], p)
  }

  lemma {:induction false} NoneAfter(rows: seq<Row>, p: Bytes)
    requires forall r <- rows :: !(p <= r.key)
    ensures Filter(rows, p) == []
  {
    if rows != [] {
      assert rows[0] in rows && forall r <- rows[1..] :: r in rows;
      NoneAfter(rows[1..], p);
    }
  }

  /** From a row that is not below the prefix on, stopping at the first foreign key loses nothing. */
  lemma {:induction false} StopIsFilter(rows: seq<Row>, p: Bytes)
    requires Sorted(rows) && (rows != [] ==> !Less(rows[0].key, p))
    ensures TakeWhile(rows, p) == Filter(rows, p)
  {
    if rows != [] {
      if p <= rows[0].key {
        forall r | r in rows[1..] ensures !Less(r.key, p) { NotBelow(rows[0].key, r.key, p); }
        StopIsFilter(rows[1..], p);
      } else {
        forall r | r in rows[1..] ensures !(p <= r.key) { PastPrefix(rows[0].key, r.key, p); }
        NoneAfter(rows[1..], p);
      }
    }
  }

  lemma {:induction false} NotBelow(k: Bytes, later: Bytes, p: Bytes)
    requires !Less(k, p) && Less(k, later)
    ensures !Less(later, p)
  {
    if p != [] && k != [] && later[0] == p[0] { NotBelow(k[1..], later[1..], p[1..]); }
  }

  /** Skipping rows without the prefix changes nothing. */
  lemma {:induction false} SkipIsFilter(rows: seq<Row>, p: Bytes, i: nat)
    requires i <= |rows| && forall j :: 0 <= j < i ==> !(p <= rows[j].key)
    ensures Filter(rows, p) == Filter(rows[i..], p)
  {
    if i > 0 {
      SkipIsFilter(rows[1..], p, i - 1);
      assert rows[1..][i - 1..] == rows[i..];
    }
  }

  /** A seek target that separates the keys below the prefix from those that start with it. */
  predicate GoodTarget(rows: seq<Row>, target: Bytes, p: Bytes) {
    && (forall r <- rows :: Less(r.key, target) ==> !(p <= r.key))
    && (forall r <- rows :: !Less(r.key, target) ==> !Less(r.key, p))
  }

  /** Seek and stop finds what the full scan finds. */
  lemma {:induction false} SeekAndStop(rows: seq<Row>, target: Bytes, p: Bytes)
    requires Sorted(rows) && GoodTarget(rows, target, p)
    ensures TakeWhile(rows[Seek(rows, target)..], p) == Filter(rows, p)
  {
    var i := Seek(rows, target);
    SkipIsFilter(rows, p, i);
    StopIsFilter(rows[i..], p);
  }

  /** Both the target of LevelDB and that of LMDB, one byte longer, are good ones. */
  lemma {:induction false} TargetsAreGood(rows: seq<Row>, p: Bytes)
    requires AllTerminated(rows) && CString(p)
    ensures GoodTarget(rows, p, p) && GoodTarget(rows, p + [0], p)
  {
    forall r | r in rows && p <= r.key ensures !Less(r.key, p) && !Less(r.key, p + [0]) {
      PrefixNotLess(r.key, p);
      PrefixNotLessNul(r.key, p);
    }
    forall r | r in rows && !Less(r.key, p + [0]) ensures !Less(r.key, p) { NotLessShorter(r.key, p); }
  }

  // ----- The iterators -----

  /** The key of a row as the caller gets it: without the namespace, up to the NUL. */
  function Visible(r: Row, nsLen: nat): (v: Row)
    requires nsLen < |r.key|
  { Row(r.key[nsLen..|r.key| - 1], r.value) }

  lemma PrefixShorter(k: Bytes, p: Bytes)
    requires Terminated(k) && CString(p) && p <= k
    ensures |p| < |k|
  {
    assert |p| == |k| ==> p == k;
    assert 0 in k;
  }

  /** The iterator of the two ordered stores. */
  class OrderedScan {
    const rows: seq<Row>
    const target: Bytes
    const prefix: Bytes
    const namespaceLen: nat
    var first: bool
    var at: nat

    ghost predicate Valid()
      reads this
    {
      && Sorted(rows) && AllTerminated(rows)
      && CString(prefix) && namespaceLen <= |prefix| && GoodTarget(rows, target, prefix)
      && (first || at < |rows|)
    }

    /** The rows that are still to come. */
    ghost function ToCome(): seq<Row>
      reads this
      requires first || at < |rows|
    { TakeWhile(rows[if first then Seek(rows, target) else at + 1..], prefix) }

    /** LevelDB seeks to the prefix. */
    constructor LevelDb(rows: seq<Row>, ns: Bytes, keyPrefix: Bytes)
      requires Sorted(rows) && AllTerminated(rows) && CString(ns) && CString(keyPrefix)
      ensures Valid() && namespaceLen == |ns| + 1 && ToCome() == Filter(rows, ScanPrefix(ns, keyPrefix))
    {
      var p := ScanPrefix(ns, keyPrefix);
      this.rows, prefix, target := rows, p, p;
      namespaceLen, first, at := |ns| + 1, true, 0;
      TargetsAreGood(rows, p);
      SeekAndStop(rows, p, p);
    }

    /** LMDB seeks to the prefix and its terminating NUL. */
    constructor Lmdb(rows: seq<Row>, ns: Bytes, keyPrefix: Bytes)
      requires Sorted(rows) && AllTerminated(rows) && CString(ns) && CString(keyPrefix)
      ensures Valid() && namespaceLen == |ns| + 1 && ToCome() == Filter(rows, ScanPrefix(ns, keyPrefix))
    {
      var p := ScanPrefix(ns, keyPrefix);
      this.rows, prefix, target := rows, p, p + [0];
      namespaceLen, first, at := |ns| + 1, true, 0;
      TargetsAreGood(rows, p);
      SeekAndStop(rows, p + [0], p);
    }

    /** Delivers the next row. The iterator is gone after it has reported the end. */
    method Iterate() returns (row: Option<Row>)
      requires Valid()
      modifies this
      ensures row.None? <==> old(ToCome()) == []
      ensures row.Some? ==> Valid() && ToCome() == old(ToCome())[1..]
      ensures row.Some? ==> namespaceLen < |old(ToCome())[0].key| && row.value == Visible(old(ToCome())[0], namespaceLen)
    {
      if first {
        at := Seek(rows, target);
        first := false;
      } else {
        at := at + 1;
      }
      if at < |rows| {
        if !(prefix <= rows[at].key) { return None; }
        PrefixShorter(rows[at].key, prefix);
        return Some(Visible(rows[at], namespaceLen));
      }
      return None;
    }
  }

  /** The iterator of GDBM. `at` is one past the last row when there is no next key. */
  class FilterScan {
    const rows: seq<Row>
    const prefix: Bytes
    const namespaceLen: nat
    var first: bool
    var at: nat

    ghost predicate Valid()
      reads this
    {
      && AllTerminated(rows)
      && CString(prefix) && namespaceLen <= |prefix|
      && (first || at < |rows|)
    }

    ghost function ToCome(): seq<Row>
      reads this
      requires first || at < |rows|
    { Filter(rows[if first then 0 else at + 1..], prefix) }

    constructor (rows: seq<Row>, ns: Bytes, keyPrefix: Bytes)
      requires AllTerminated(rows) && CString(ns) && CString(keyPrefix)
      ensures Valid() && namespaceLen == |ns| + 1 && ToCome() == Filter(rows, ScanPrefix(ns, keyPrefix))
    {
      this.rows, prefix := rows, ScanPrefix(ns, keyPrefix);
      namespaceLen, first, at := |ns| + 1, true, 0;
      new;
      assert rows[0..] == rows;
    }

    method Iterate() returns (row: Option<Row>)
      requires Valid()
      modifies this
      ensures row.None? <==> old(ToCome()) == []
      ensures row.Some? ==> Valid() && ToCome() == old(ToCome())[1..]
      ensures row.Some? ==> namespaceLen < |old(ToCome())[0].key| && row.value == Visible(old(ToCome())[0], namespaceLen)
    {
      ghost var toCome := ToCome();
      if first {
        at := 0;
        first := false;
      } else {
        at := at + 1;
      }
      while at < |rows|
        invariant !first && at <= |rows| && toCome == Filter(rows[at..], prefix)
      {
        if !(prefix <= rows[at].key) {
          at := at + 1;
          continue;
        }
        PrefixShorter(rows[at].key, prefix);
        return Some(Visible(rows[at], namespaceLen));
      }
      return None;
    }
  }

  /** The backends share an interface; j_backend_kv_iterate calls the one that is loaded. */
  datatype Scan = Ordered(ordered: OrderedScan) | Unordered(unordered: FilterScan) {
    ghost function Object(): object { match this case Ordered(o) => o case Unordered(u) => u }

    ghost predicate Valid()
      reads Object()
    { match this case Ordered(o) => o.Valid() case Unordered(u) => u.Valid() }

    ghost function ToCome(): seq<Row>
      reads Object()
      requires Valid()
    { match this case Ordered(o) => o.ToCome() case Unordered(u) => u.ToCome() }

    ghost function NamespaceLen(): nat { match this case Ordered(o) => o.namespaceLen case Unordered(u) => u.namespaceLen }

    method Iterate() returns (row: Option<Row>)
      requires Valid()
      modifies Object()
      ensures row.None? <==> old(ToCome()) == []
      ensures row.Some? ==> Valid() && ToCome() == old(ToCome())[1..]
      ensures row.Some? ==> NamespaceLen() < |old(ToCome())[0].key| && row.value == Visible(old(ToCome())[0], NamespaceLen())
    {
      match this
      case Ordered(o) => row := o.Iterate();
      case Unordered(u) => row := u.Iterate();
    }
  }

  // ----- The three backends agree -----

  lemma {:induction false} FilterCount(rows: seq<Row>, p: Bytes, r: Row)
    ensures multiset(Filter(rows, p))[r] == if p <= r.key then multiset(rows)[r] else 0
  {
    if rows != [] {
      FilterCount(rows[1..], p, r);
      assert rows == [rows[0]] + rows[1..];
    }
  }

  /** The order in which GDBM delivers its keys decides nothing but the order of the results. */
  lemma {:induction false} AnyOrder(ordered: seq<Row>, unordered: seq<Row>, p: Bytes)
    requires multiset(ordered) == multiset(unordered)
    ensures multiset(Filter(ordered, p)) == multiset(Filter(unordered, p))
  {
    forall r: Row ensures multiset(Filter(ordered, p))[r] == multiset(Filter(unordered, p))[r] {
      FilterCount(ordered, p, r);
      FilterCount(unordered, p, r);
    }
  }

  // ----- Namespaces -----

  datatype Name = Name(ns: Bytes, key: Bytes)
  datatype Op = Put(name: Name, value: Bytes) | Delete(name: Name)

  /** What the clients mean: every namespace is a map of its own. */
  function Meant(ops: seq<Op>): map<Name, Bytes> {
    if ops == [] then map[]
    else
      var m := Meant(ops[..|ops| - 1]);
      match ops[|ops| - 1]
      case Put(n, v) => m[n := v]
      case Delete(n) => m - {n}
  }

  /** What the backends do: there is one map. */
  function Database(ops: seq<Op>): map<Bytes, Bytes> {
    if ops == [] then map[]
    else
      var m := Database(ops[..|ops| - 1]);
      match ops[|ops| - 1]
      case Put(n, v) => m[Stored(n.ns, n.key) := v]
      case Delete(n) => m - {Stored(n.ns, n.key)}
  }

  predicate AllC(ops: seq<Op>) { forall o <- ops :: CString(o.name.ns) && CString(o.name.key) }

  /** Neither namespace, with its colon, starts with the other. */
  predicate Apart(a: Bytes, b: Bytes) {
    a == b || !(a + [COLON] <= b + [COLON] || b + [COLON] <= a + [COLON])
  }

  predicate AllApart(ops: seq<Op>, ns: Bytes) { forall o <- ops :: Apart(o.name.ns, ns) }

  /** Namespaces without a colon do not get in each other's way. */
  lemma ColonFreeApart(a: Bytes, b: Bytes)
    requires COLON !in a && COLON !in b
    ensures Apart(a, b)
  {
    if a + [COLON] <= b + [COLON] {
      assert (a + [COLON])[|a|] == COLON;
      assert |a| == |b|;
      assert a == (b + [COLON])[..|a|] == b;
    }
    if b + [COLON] <= a + [COLON] {
      assert (b + [COLON])[|b|] == COLON;
      assert |a| == |b|;
      assert b == (a + [COLON])[..|b|] == a;
    }
  }

  /** A stored key belongs to one name only, among namespaces that are apart. */
  lemma StoredInjective(a: Bytes, k: Bytes, b: Bytes, l: Bytes)
    requires Apart(a, b) && Stored(a, k) == Stored(b, l)
    ensures a == b && k == l
  {
    var s := Stored(a, k);
    assert s[..|a| + 1] == a + [COLON] && s[..|b| + 1] == b + [COLON];
    assert |a| <= |b| ==> (b + [COLON])[..|a| + 1] == a + [COLON];
    assert |b| <= |a| ==> (a + [COLON])[..|b| + 1] == b + [COLON];
    assert k == s[|a| + 1..|s| - 1] && l == s[|b| + 1..|s| - 1];
  }

  /** What is stored for a name is what was meant. */
  lemma {:induction false} StoredAsMeant(ops: seq<Op>, ns: Bytes, k: Bytes)
    requires AllApart(ops, ns)
    ensures Stored(ns, k) in Database(ops) <==> Name(ns, k) in Meant(ops)
    ensures Name(ns, k) in Meant(ops) ==> Database(ops)[Stored(ns, k)] == Meant(ops)[Name(ns, k)]
  {
    if ops != [] {
      var init, o := ops[..|ops| - 1], ops[|ops| - 1];
      assert o in ops && forall q <- init :: q in ops;
      StoredAsMeant(init, ns, k);
      if Stored(o.name.ns, o.name.key) == Stored(ns, k) { StoredInjective(o.name.ns, o.name.key, ns, k); }
    }
  }

  /** The rows of a database, in some order. */
  predicate Lists(rows: seq<Row>, db: map<Bytes, Bytes>) {
    && (forall r <- rows :: r.key in db && db[r.key] == r.value)
    && (forall k <- db :: Row(k, db[k]) in rows)
  }

  /** What is listed for a namespace and a prefix: the visible part of a row that the scan keeps. */
  ghost predicate Shown(rows: seq<Row>, ns: Bytes, prefix: Bytes, k: Bytes, v: Bytes) {
    exists r <- Filter(rows, ScanPrefix(ns, prefix)) :: |ns| + 1 < |r.key| && Visible(r, |ns| + 1) == Row(k, v)
  }

  lemma FilterHas(rows: seq<Row>, p: Bytes, r: Row)
    ensures r in Filter(rows, p) <==> r in rows && p <= r.key
  {
    FilterCount(rows, p, r);
    assert r in multiset(Filter(rows, p)) <==> r in Filter(rows, p);
    assert r in multiset(rows) <==> r in rows;
  }

  /** Every stored key ends in its NUL, and has no other. */
  lemma {:induction false} StoredTerminated(ops: seq<Op>, k: Bytes)
    requires AllC(ops) && k in Database(ops)
    ensures Terminated(k)
  {
    var init, o := ops[..|ops| - 1], ops[|ops| - 1];
    assert o in ops && forall q <- init :: q in ops;
    if k == Stored(o.name.ns, o.name.key) {
      assert k[..|k| - 1] == o.name.ns + [COLON] + o.name.key;
    } else {
      StoredTerminated(init, k);
    }
  }

  lemma ShownIsStored(rows: seq<Row>, db: map<Bytes, Bytes>, ns: Bytes, prefix: Bytes, k: Bytes, v: Bytes)
    requires Lists(rows, db) && (forall r <- rows :: Terminated(r.key)) && CString(ns) && CString(prefix)
    ensures Shown(rows, ns, prefix, k, v)
       <==> prefix <= k && Stored(ns, k) in db && db[Stored(ns, k)] == v
  {
    if Shown(rows, ns, prefix, k, v) {
      var r :| r in Filter(rows, ScanPrefix(ns, prefix)) && |ns| + 1 < |r.key| && Visible(r, |ns| + 1) == Row(k, v);
      FilterHas(rows, ScanPrefix(ns, prefix), r);
      KeptKey(r, ns, prefix);
    }
    if prefix <= k && Stored(ns, k) in db && db[Stored(ns, k)] == v {
      var r := Row(Stored(ns, k), v);
      StoredKept(r, ns, prefix, k);
      FilterHas(rows, ScanPrefix(ns, prefix), r);
    }
  }

  lemma KeptKey(r: Row, ns: Bytes, prefix: Bytes)
    requires Terminated(r.key) && CString(ns) && CString(prefix) && ScanPrefix(ns, prefix) <= r.key
    ensures |ns| + 1 < |r.key| && prefix <= Visible(r, |ns| + 1).key && r.key == Stored(ns, Visible(r, |ns| + 1).key)
  {
    var p := ScanPrefix(ns, prefix);
    PrefixShorter(r.key, p);
    assert r.key[..|ns| + 1] == p[..|ns| + 1] == ns + [COLON];
    assert r.key == r.key[..|ns| + 1] + r.key[|ns| + 1..|r.key| - 1] + [0];
    assert Visible(r, |ns| + 1).key[..|prefix|] == p[|ns| + 1..] == prefix;
  }

  lemma StoredKept(r: Row, ns: Bytes, prefix: Bytes, k: Bytes)
    requires r.key == Stored(ns, k) && prefix <= k
    ensures |ns| + 1 < |r.key| && ScanPrefix(ns, prefix) <= r.key && Visible(r, |ns| + 1) == Row(k, r.value)
  {
    assert r.key[..|ns| + 1 + |prefix|] == ns + [COLON] + k[..|prefix|];
  }

  /**
   Listing a namespace shows exactly what its clients put there, as long as the other namespaces in use are
   apart from it.
   */
  lemma {:induction false} ListingIsExact(ops: seq<Op>, rows: seq<Row>, ns: Bytes, prefix: Bytes, k: Bytes, v: Bytes)
    requires AllC(ops) && AllApart(ops, ns) && CString(ns) && CString(prefix) && Lists(rows, Database(ops))
    ensures Shown(rows, ns, prefix, k, v) <==> prefix <= k && Name(ns, k) in Meant(ops) && Meant(ops)[Name(ns, k)] == v
  {
    forall r | r in rows ensures Terminated(r.key) { StoredTerminated(ops, r.key); }
    ShownIsStored(rows, Database(ops), ns, prefix, k, v);
    StoredAsMeant(ops, ns, k);
  }

  ghost predicate Exact(ops: seq<Op>, ns: Bytes) {
    forall k :: Stored(ns, k) in Database(ops) <==> Name(ns, k) in Meant(ops)
  }

  predicate Within(ops: seq<Op>, a: Bytes, b: Bytes) { forall o <- ops :: o.name.ns == a || o.name.ns == b }

  /** A key of `b` that is stored where a key of `a` would be. */
  function Clash(a: Bytes, b: Bytes): (n: Name)
    requires !Apart(a, b)
    ensures n.ns == b && (CString(a) ==> CString(n.key))
    ensures exists k :: Stored(b, n.key) == Stored(a, k)
  {
    if a + [COLON] <= b + [COLON] then
      var k := (b + [COLON])[|a| + 1..];
      assert Stored(b, []) == Stored(a, k);
      Name(b, [])
    else
      var l := (a + [COLON])[|b| + 1..];
      assert Stored(b, l) == Stored(a, []);
      Name(b, l)
  }

  /** Two namespaces can be used side by side if and only if they are apart. */
  lemma {:induction false} ExactIffApart(a: Bytes, b: Bytes)
    requires CString(a) && CString(b)
    ensures Apart(a, b) <==> forall ops | AllC(ops) && Within(ops, a, b) :: Exact(ops, a)
  {
    if Apart(a, b) {
      forall ops | AllC(ops) && Within(ops, a, b) ensures Exact(ops, a) {
        forall k ensures Stored(a, k) in Database(ops) <==> Name(a, k) in Meant(ops) { StoredAsMeant(ops, a, k); }
      }
    } else {
      var n := Clash(a, b);
      var ops := [Put(n, [1])];
      var k :| Stored(b, n.key) == Stored(a, k);
      assert ops[..0] == [];
      assert Database(ops) == map[Stored(n.ns, n.key) := [1]];
      assert Meant(ops) == map[n := [1]];
      assert AllC(ops) && Within(ops, a, b) && !Exact(ops, a);
    }
  }

  /** The key "b:c" of the namespace "a" is the key "c" of the namespace "a:b". */
  lemma ColonClash()
    ensures Stored([97], [98, COLON, 99]) == Stored([97, COLON, 98], [99]) && !Apart([97], [97, COLON, 98])
  {
    assert ([97, COLON, 98] + [COLON])[..2] == [97] + [COLON];
  }
}
