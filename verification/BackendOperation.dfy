/**
 The parameter codec of backend operations (lib/core/jbackend-operation.c): a two-pass encoder (announce
 the length, then write) and two decoders, one that points into the message and one that copies.
 */
module BackendOperation {
  import opened Basics
  import opened Message

  datatype Kind = StrKind | BlobKind | BsonKind | ErrorKind

  /** A GError; strings are C strings, so they hold no NUL. */
  datatype Err = Err(code: int, domain: Bytes, message: Bytes)

  /** A JBackendOperationParam. `None` is a NULL pointer; `Error(None)` has no GError slot,
      `Error(Some(None))` has an empty one. */
  datatype Param =
    | Str(str: Option<Bytes>)
    | Blob(ptr: Option<Bytes>, len: nat)
    | Bson(doc: Option<Bytes>, initialized: bool)
    | Error(slot: Option<Option<Err>>)

  function KindOf(p: Param): Kind {
    match p
    case Str(_) => StrKind
    case Blob(_, _) => BlobKind
    case Bson(_, _) => BsonKind
    case Error(_) => ErrorKind
  }

  function Kinds(ps: seq<Param>): (ks: seq<Kind>)
    ensures |ks| == |ps|
  { if ps == [] then [] else Kinds(ps[..|ps| - 1]) + [KindOf(ps[|ps| - 1])] }

  // ----- Encoding -----

  const MAX: int := 0x8000_0000

  /** What the C types demand: strings end at their NUL, a blob's pointer leads to `len` bytes, an error
      code is a 32-bit integer, and lengths stay below 2^31. A document is the bytes that its `len` field
      counts: none for a bson_t that is all zero. */
  predicate Typed(p: Param) {
    && Length(p) < MAX
    && match p
       case Str(s) => s.Some? ==> CString(s.value)
       case Blob(b, n) => b.Some? ==> |b.value| == n
       case Bson(_, _) => true
       case Error(e) => e.Some? && e.value.Some? ==>
         CString(e.value.value.domain) && CString(e.value.value.message) && -MAX <= e.value.value.code < MAX
  }

  predicate AllTyped(ps: seq<Param>) { forall i :: 0 <= i < |ps| ==> Typed(ps[i]) }

  /** The length that the first pass computes for one parameter. */
  function Length(p: Param): nat {
    match p
    case Str(s) => if s.Some? then |s.value| + 1 else 0
    case Blob(_, n) => n
    case Bson(d, i) => if i && d.Some? then |d.value| else 0
    case Error(None) => 4
    case Error(Some(None)) => 4 + 4
    case Error(Some(Some(e))) => 4 + 4 + (4 + 4 + 4) + (|e.domain| + 1) + (|e.message| + 1)
  }

  /** The sum that the first pass announces to j_message_add_operation. */
  function Announced(ps: seq<Param>): nat {
    if ps == [] then 0 else Announced(ps[..|ps| - 1]) + 4 + Length(ps[|ps| - 1])
  }

  /** A 32-bit integer as the unsigned integer with the same bits. */
  function ToUnsigned(n: int): (u: nat)
    ensures -MAX <= n < MAX ==> u < TWO_32 && ToSigned(u) == n
  { if -MAX <= n < 0 then n + TWO_32 else if n < 0 then 0 else n }

  function ToSigned(u: nat): int { if u >= MAX then u - TWO_32 else u }

  function Terminated(b: Bytes): Bytes { b + [0] }

  /** What the second pass writes after the length. */
  ghost function Body(p: Param): Bytes {
    match p
    case Str(s) => if s.Some? then Terminated(s.value) else []
    case Blob(b, _) => if b.Some? then b.value else []
    case Bson(d, i) => if i && d.Some? then d.value else []
    case Error(None) => Le4(0)
    case Error(Some(None)) => Le4(1) + Le4(0)
    case Error(Some(Some(e))) => Le4(1) + (Le4(1) + ErrorBody(e))
  }

  ghost function ErrorBody(e: Err): Bytes {
    Le4(ToUnsigned(e.code)) + (Le4(|e.domain| + 1) + (Le4(|e.message| + 1) + (Terminated(e.domain) + Terminated(e.message))))
  }

  ghost function Encode(p: Param): Bytes { Le4(Length(p)) + Body(p) }

  ghost function EncodeAll(ps: seq<Param>): Bytes { if ps == [] then [] else EncodeAll(ps[..|ps| - 1]) + Encode(ps[|ps| - 1]) }

  /** The encoder takes the document and the error out of the parameters it has written; a document of
      length zero is not written and keeps its mark. */
  function Spent(p: Param): Param {
    match p
    case Bson(Some(d), true) => Bson(Some(d), d == [])
    case Error(Some(Some(_))) => Error(Some(None))
    case _ => p
  }

  /** What has been sent is not sent again: a second encoding carries no document and no error. */
  lemma SentOnce(p: Param)
    ensures Spent(p).Bson? ==> Body(Spent(p)) == []
    ensures p.Error? ==> Spent(p) == Error(if p.slot.Some? then Some(None) else None)
    ensures p.Str? || p.Blob? ==> Spent(p) == p
  {}

  /** A blob with a length but no data. */
  predicate Hollow(p: Param) { p.Blob? && p.ptr.None? && p.len > 0 }

  lemma BodyLength(p: Param)
    requires Typed(p)
    ensures |Body(p)| <= Length(p) && (|Body(p)| == Length(p) <==> !Hollow(p))
  {}

  /** The bytes written are never more than announced, and exactly as many as announced if and only if no
      blob has a length but a NULL pointer. */
  lemma {:induction false} WrittenIsAnnounced(ps: seq<Param>)
    requires AllTyped(ps)
    ensures |EncodeAll(ps)| <= Announced(ps)
    ensures |EncodeAll(ps)| == Announced(ps) <==> NoneHollow(ps)
  {
    if ps != [] {
      var init, p := ps[..|ps| - 1], ps[|ps| - 1];
      WrittenIsAnnounced(init);
      BodyLength(p);
      assert forall i :: 0 <= i < |ps| ==> ps[i] == if i < |init| then init[i] else p;
      assert forall i :: 0 <= i < |init| ==> ps[i] == init[i];
    }
  }

  // ----- Decoding -----

  function CStrAt(b: Option<Bytes>): Bytes { if b.Some? then CStr(b.value) else [] }

  /** bson_init_static accepts a buffer whose length field is its length and that ends in NUL. */
  predicate BsonOk(b: Bytes) { |b| >= 5 && FromLe4(b[..4]) == |b| && b[|b| - 1] == 0 }

  /** The result of one decoding step: the value, the new cursor, and the return value. */
  datatype Step<+T> = Step(value: T, cur: nat, ok: bool)

  /** One more value behind those decoded so far. */
  function Then<T>(init: Step<seq<T>>, last: Step<T>): Step<seq<T>> {
    Step(init.value + [last.value], last.cur, last.ok && init.ok)
  }

  /** The fields of an error: code, two lengths, two strings. */
  function GetError(data: Bytes, cur: nat): (Err, nat) {
    var (code, c1) := Get4(data, cur);
    var (domainLen, c2) := Get4(data, c1);
    var (messageLen, c3) := Get4(data, c2);
    var (domain, c4) := GetN(data, c3, domainLen);
    var (message, c5) := GetN(data, c4, messageLen);
    (Err(ToSigned(code), CStrAt(domain), CStrAt(message)), c5)
  }

  function DecodeError(data: Bytes, cur: nat): Step<Option<Option<Err>>> {
    var (slot, c1) := Get4(data, cur);
    if slot == 0 then Step(None, c1, true)
    else
      var (full, c2) := Get4(data, c1);
      if full == 0 then Step(Some(None), c2, true)
      else
        var (e, c3) := GetError(data, c2);
        Step(Some(Some(e)), c3, false)
  }

  /** One parameter, as j_backend_operation_from_message_static reads it. */
  function Decode(k: Kind, data: Bytes, cur: nat): Step<Param> {
    var (len, c) := Get4(data, cur);
    match k
    case StrKind =>
      if len == 0 then Step(Str(None), c, true)
      else var (b, c') := GetN(data, c, len); Step(Str(if b.Some? then Some(CStr(b.value)) else None), c', true)
    case BlobKind =>
      if len == 0 then Step(Blob(None, 0), c, true)
      else var (b, c') := GetN(data, c, len); Step(Blob(b, len), c', true)
    case BsonKind =>
      if len == 0 then Step(Bson(None, false), c, true)
      else var (b, c') := GetN(data, c, len); Step(Bson(b, true), c', b.Some? && BsonOk(b.value))
    case ErrorKind =>
      if len == 0 then Step(Error(None), c, true)
      else var e := DecodeError(data, c); Step(Error(e.value), e.cur, e.ok)
  }

  function DecodeAll(ks: seq<Kind>, data: Bytes, cur: nat): Step<seq<Param>> {
    if ks == [] then Step([], cur, true)
    else
      var init := DecodeAll(ks[..|ks| - 1], data, cur);
      Then(init, Decode(ks[|ks| - 1], data, init.cur))
  }

  /** A document whose bytes are cut short: bson_init_static is given NULL, and stops the program. */
  predicate CutShort(k: Kind, data: Bytes, cur: nat) {
    k.BsonKind? && Get4(data, cur).0 != 0 && GetN(data, Get4(data, cur).1, Get4(data, cur).0).0.None?
  }

  /** Decoding these parameters stops the program. */
  predicate Stops(ks: seq<Kind>, data: Bytes, cur: nat) {
    ks != [] &&
    (|| Stops(ks[..|ks| - 1], data, cur)
     || CutShort(ks[|ks| - 1], data, DecodeAll(ks[..|ks| - 1], data, cur).cur))
  }

  lemma StopsLast(ks: seq<Kind>, k: Kind, data: Bytes, cur: nat)
    ensures Stops(ks + [k], data, cur) <==> Stops(ks, data, cur) || CutShort(k, data, DecodeAll(ks, data, cur).cur)
  {
    assert (ks + [k])[..|ks|] == ks;
  }

  /** What the wire format can carry of a parameter: an empty blob comes back as NULL, a document that is
      not initialised or has length zero as absent. */
  function Carried(p: Param): Param {
    match p
    case Blob(b, n) => if n == 0 then Blob(None, 0) else p
    case Bson(d, i) => if i && d.Some? && d.value != [] then p else Bson(None, false)
    case _ => p
  }

  function AllCarried(ps: seq<Param>): (r: seq<Param>)
    ensures |r| == |ps| && forall i :: 0 <= i < |ps| ==> r[i] == Carried(ps[i])
  { if ps == [] then [] else AllCarried(ps[..|ps| - 1]) + [Carried(ps[|ps| - 1])] }

  /** Does decoding this parameter report success? */
  predicate Succeeds(p: Param) {
    match p
    case Bson(d, i) => i && d.Some? && d.value != [] ==> BsonOk(d.value)
    case Error(e) => !(e.Some? && e.value.Some?)
    case _ => true
  }

  lemma {:induction false} CStrTerminated(b: Bytes)
    requires CString(b)
    ensures CStr(Terminated(b)) == b
  {
    if b != [] {
      CStrTerminated(b[1..]);
      assert Terminated(b)[1..] == Terminated(b[1..]);
    }
  }

  /** Where the fields of an encoded error stand. */
  lemma ErrorLayout(e: Err, data: Bytes, cur: nat)
    requires Typed(Error(Some(Some(e)))) && At(data, cur, ErrorBody(e))
    ensures var d, m := Terminated(e.domain), Terminated(e.message);
            && At(data, cur, Le4(ToUnsigned(e.code))) && At(data, cur + 4, Le4(|d|)) && At(data, cur + 8, Le4(|m|))
            && At(data, cur + 12, d) && At(data, cur + 12 + |d|, m)
  {
    var d, m := Terminated(e.domain), Terminated(e.message);
    FivePieces(data, cur, Le4(ToUnsigned(e.code)), Le4(|d|), Le4(|m|), d, m);
  }

  lemma FivePieces(data: Bytes, cur: nat, a: Bytes, b: Bytes, c: Bytes, d: Bytes, e: Bytes)
    requires |a| == |b| == |c| == 4 && At(data, cur, a + (b + (c + (d + e))))
    ensures At(data, cur, a) && At(data, cur + 4, b) && At(data, cur + 8, c)
    ensures At(data, cur + 12, d) && At(data, cur + 12 + |d|, e)
  {
    AtSplit(data, cur, a, b + (c + (d + e)));
    AtSplit(data, cur + 4, b, c + (d + e));
    AtSplit(data, cur + 8, c, d + e);
    AtSplit(data, cur + 12, d, e);
  }

  /** What reading an encoded error yields, field by field. */
  lemma ErrorFields(e: Err, data: Bytes, cur: nat)
    requires Typed(Error(Some(Some(e)))) && At(data, cur, ErrorBody(e))
    ensures var d, m := Terminated(e.domain), Terminated(e.message);
            && Get4(data, cur) == (ToUnsigned(e.code), cur + 4)
            && Get4(data, cur + 4) == (|d|, cur + 8) && Get4(data, cur + 8) == (|m|, cur + 12)
            && GetN(data, cur + 12, |d|) == (Some(d), cur + 12 + |d|)
            && GetN(data, cur + 12 + |d|, |m|) == (Some(m), cur + 12 + |d| + |m|)
  {
    var d, m := Terminated(e.domain), Terminated(e.message);
    ErrorLayout(e, data, cur);
    GetWritten4(data, cur, ToUnsigned(e.code));
    GetWritten4(data, cur + 4, |d|);
    GetWritten4(data, cur + 8, |m|);
    GetWrittenN(data, cur + 12, d);
    GetWrittenN(data, cur + 12 + |d|, m);
  }

  lemma ErrorRoundTrip(e: Err, data: Bytes, cur: nat)
    requires Typed(Error(Some(Some(e)))) && At(data, cur, ErrorBody(e))
    ensures GetError(data, cur) == (e, cur + |ErrorBody(e)|)
  {
    ErrorFields(e, data, cur);
    ErrorPieces(e, []);
    CStrTerminated(e.domain);
    CStrTerminated(e.message);
  }

  lemma SlotRoundTrip(slot: Option<Option<Err>>, data: Bytes, cur: nat)
    requires Typed(Error(slot)) && At(data, cur, Body(Error(slot)))
    ensures DecodeError(data, cur) == Step(slot, cur + |Body(Error(slot))|, Succeeds(Error(slot)))
  {
    match slot
    case None => GetWritten4(data, cur, 0);
    case Some(None) =>
      AtSplit(data, cur, Le4(1), Le4(0));
      GetWritten4(data, cur, 1);
      GetWritten4(data, cur + 4, 0);
    case Some(Some(e)) =>
      AtSplit(data, cur, Le4(1), Le4(1) + ErrorBody(e));
      AtSplit(data, cur + 4, Le4(1), ErrorBody(e));
      GetWritten4(data, cur, 1);
      GetWritten4(data, cur + 4, 1);
      ErrorRoundTrip(e, data, cur + 8);
  }

  /** A length and as many bytes, read back. */
  lemma PayloadRoundTrip(b: Bytes, data: Bytes, cur: nat)
    requires |b| < MAX && At(data, cur, Le4(|b|) + b)
    ensures Get4(data, cur) == (|b|, cur + 4) && GetN(data, cur + 4, |b|) == (Some(b), cur + 4 + |b|)
  {
    AtSplit(data, cur, Le4(|b|), b);
    GetWritten4(data, cur, |b|);
    GetWrittenN(data, cur + 4, b);
  }

  lemma StrRoundTrip(s: Option<Bytes>, data: Bytes, cur: nat)
    requires Typed(Str(s)) && At(data, cur, Encode(Str(s)))
    ensures Decode(StrKind, data, cur) == Step(Str(s), cur + |Encode(Str(s))|, true)
  {
    PayloadRoundTrip(Body(Str(s)), data, cur);
    if s.Some? { CStrTerminated(s.value); }
  }

  lemma BlobRoundTrip(b: Option<Bytes>, n: nat, data: Bytes, cur: nat)
    requires Typed(Blob(b, n)) && !Hollow(Blob(b, n)) && At(data, cur, Encode(Blob(b, n)))
    ensures Decode(BlobKind, data, cur) == Step(Carried(Blob(b, n)), cur + |Encode(Blob(b, n))|, true)
  {
    PayloadRoundTrip(Body(Blob(b, n)), data, cur);
  }

  lemma BsonRoundTrip(d: Option<Bytes>, i: bool, data: Bytes, cur: nat)
    requires Typed(Bson(d, i)) && At(data, cur, Encode(Bson(d, i)))
    ensures Decode(BsonKind, data, cur) == Step(Carried(Bson(d, i)), cur + |Encode(Bson(d, i))|, Succeeds(Bson(d, i)))
  {
    PayloadRoundTrip(Body(Bson(d, i)), data, cur);
  }

  lemma ErrorParamRoundTrip(slot: Option<Option<Err>>, data: Bytes, cur: nat)
    requires Typed(Error(slot)) && At(data, cur, Encode(Error(slot)))
    ensures Decode(ErrorKind, data, cur) == Step(Error(slot), cur + |Encode(Error(slot))|, Succeeds(Error(slot)))
  {
    AtSplit(data, cur, Le4(Length(Error(slot))), Body(Error(slot)));
    GetWritten4(data, cur, Length(Error(slot)));
    SlotRoundTrip(slot, data, cur + 4);
  }

  lemma RoundTripOne(p: Param, data: Bytes, cur: nat)
    requires Typed(p) && !Hollow(p) && At(data, cur, Encode(p))
    ensures Decode(KindOf(p), data, cur) == Step(Carried(p), cur + |Encode(p)|, Succeeds(p))
  {
    match p
    case Str(s) => StrRoundTrip(s, data, cur);
    case Blob(b, n) => BlobRoundTrip(b, n, data, cur);
    case Bson(d, i) => BsonRoundTrip(d, i, data, cur);
    case Error(slot) => ErrorParamRoundTrip(slot, data, cur);
  }

  predicate AllSucceed(ps: seq<Param>) { forall i :: 0 <= i < |ps| ==> Succeeds(ps[i]) }

  predicate NoneHollow(ps: seq<Param>) { forall i :: 0 <= i < |ps| ==> !Hollow(ps[i]) }

  lemma LastSucceeds(ps: seq<Param>)
    requires ps != []
    ensures AllSucceed(ps) <==> AllSucceed(ps[..|ps| - 1]) && Succeeds(ps[|ps| - 1])
  {
    assert ps == ps[..|ps| - 1] + [ps[|ps| - 1]];
  }

  lemma DecodeLast(ks: seq<Kind>, k: Kind, data: Bytes, cur: nat)
    ensures DecodeAll(ks + [k], data, cur) ==
            Then(DecodeAll(ks, data, cur), Decode(k, data, DecodeAll(ks, data, cur).cur))
  {
    assert (ks + [k])[..|ks|] == ks;
  }

  /** Round trip: wherever the encoding of a parameter array stands in a message, decoding there consumes
      exactly its bytes and recovers every parameter, and reports success exactly when no error was encoded
      and every document is well formed. */
  lemma {:induction false} RoundTrip(ps: seq<Param>, data: Bytes, cur: nat)
    requires AllTyped(ps) && NoneHollow(ps) && At(data, cur, EncodeAll(ps))
    ensures DecodeAll(Kinds(ps), data, cur) == Step(AllCarried(ps), cur + |EncodeAll(ps)|, AllSucceed(ps))
  {
    if ps != [] {
      var init, p := ps[..|ps| - 1], ps[|ps| - 1];
      AtSplit(data, cur, EncodeAll(init), Encode(p));
      RoundTrip(init, data, cur);
      RoundTripOne(p, data, cur + |EncodeAll(init)|);
      LastSucceeds(ps);
      DecodeLast(Kinds(init), KindOf(p), data, cur);
    }
  }

  lemma NotCut(p: Param, data: Bytes, cur: nat)
    requires Typed(p) && !Hollow(p) && At(data, cur, Encode(p))
    ensures !CutShort(KindOf(p), data, cur)
  {
    if p.Bson? { PayloadRoundTrip(Body(p), data, cur); }
  }

  /** No encoding stops a decoder. */
  lemma {:induction false} NeverStops(ps: seq<Param>, data: Bytes, cur: nat)
    requires AllTyped(ps) && NoneHollow(ps) && At(data, cur, EncodeAll(ps))
    ensures !Stops(Kinds(ps), data, cur)
  {
    if ps != [] {
      var init, p := ps[..|ps| - 1], ps[|ps| - 1];
      AtSplit(data, cur, EncodeAll(init), Encode(p));
      NeverStops(init, data, cur);
      RoundTrip(init, data, cur);
      NotCut(p, data, cur + |EncodeAll(init)|);
      StopsLast(Kinds(init), KindOf(p), data, cur);
    }
  }

  // ----- Several operations in one message -----

  predicate Sendable(ps: seq<Param>) { AllTyped(ps) && NoneHollow(ps) }

  predicate AllSendable(ops: seq<seq<Param>>) { forall i :: 0 <= i < |ops| ==> Sendable(ops[i]) }

  ghost function EncodeOps(ops: seq<seq<Param>>): Bytes { if ops == [] then [] else EncodeOps(ops[..|ops| - 1]) + EncodeAll(ops[|ops| - 1]) }

  /** The operations decoded one after the other. */
  function DecodeOps(ks: seq<seq<Kind>>, data: Bytes, cur: nat): Step<seq<seq<Param>>> {
    if ks == [] then Step([], cur, true)
    else
      var init := DecodeOps(ks[..|ks| - 1], data, cur);
      Then(init, DecodeAll(ks[|ks| - 1], data, init.cur))
  }

  predicate StopsOps(ks: seq<seq<Kind>>, data: Bytes, cur: nat) {
    ks != [] &&
    (|| StopsOps(ks[..|ks| - 1], data, cur)
     || Stops(ks[|ks| - 1], data, DecodeOps(ks[..|ks| - 1], data, cur).cur))
  }

  function KindsOf(ops: seq<seq<Param>>): seq<seq<Kind>> {
    if ops == [] then [] else KindsOf(ops[..|ops| - 1]) + [Kinds(ops[|ops| - 1])]
  }

  function CarriedOps(ops: seq<seq<Param>>): seq<seq<Param>> { if ops == [] then [] else CarriedOps(ops[..|ops| - 1]) + [AllCarried(ops[|ops| - 1])] }

  lemma DecodeLastOp(ks: seq<seq<Kind>>, k: seq<Kind>, data: Bytes, cur: nat)
    ensures DecodeOps(ks + [k], data, cur) ==
            Then(DecodeOps(ks, data, cur), DecodeAll(k, data, DecodeOps(ks, data, cur).cur))
    ensures StopsOps(ks + [k], data, cur) <==> StopsOps(ks, data, cur) || Stops(k, data, DecodeOps(ks, data, cur).cur)
  {
    assert (ks + [k])[..|ks|] == ks;
  }

  /** Any concatenation of encoded operations decodes back to them, in order and to the last byte. */
  lemma {:induction false} MessageRoundTrip(ops: seq<seq<Param>>, data: Bytes, cur: nat)
    requires AllSendable(ops) && At(data, cur, EncodeOps(ops))
    ensures DecodeOps(KindsOf(ops), data, cur).value == CarriedOps(ops)
    ensures DecodeOps(KindsOf(ops), data, cur).cur == cur + |EncodeOps(ops)| && !StopsOps(KindsOf(ops), data, cur)
  {
    if ops != [] {
      var init, op := ops[..|ops| - 1], ops[|ops| - 1];
      assert Sendable(op);
      AtSplit(data, cur, EncodeOps(init), EncodeAll(op));
      MessageRoundTrip(init, data, cur);
      RoundTrip(op, data, cur + |EncodeOps(init)|);
      NeverStops(op, data, cur + |EncodeOps(init)|);
      DecodeLastOp(KindsOf(init), Kinds(op), data, cur);
    }
  }

  // ----- The copying decoder -----

  /** What j_backend_operation_from_message leaves in the caller's variable. */
  datatype Copy =
    | Untouched
    | StringCopy(str: Option<Bytes>)
    | DocCopy(doc: Option<Bytes>)
    | ErrorCopy(err: Err)

  /** One parameter, as j_backend_operation_from_message reads it; `slot` says whether the caller gave it
      somewhere to put an error or a document. */
  function DecodeCopy(k: Kind, slot: bool, data: Bytes, cur: nat): Step<Copy> {
    var (len, c) := Get4(data, cur);
    if len == 0 then Step(Untouched, c, true)
    else if k.StrKind? || k.BlobKind? then
      var (b, c') := GetN(data, c, len); Step(StringCopy(if b.Some? then Some(CStr(b.value)) else None), c', true)
    else if k.BsonKind? then
      var (b, c') := GetN(data, c, len); Step(if slot then DocCopy(b) else Untouched, c', b.Some? && BsonOk(b.value))
    else if slot then
      CopyError(data, c)
    else
      SkipError(data, c)
  }

  function CopyError(data: Bytes, cur: nat): Step<Copy> {
    var (slot, c1) := Get4(data, cur);
    if slot == 0 then Step(Untouched, c1, true)
    else
      var (full, c2) := Get4(data, c1);
      if full == 0 then Step(Untouched, c2, true)
      else
        var (e, c3) := GetError(data, c2);
        Step(ErrorCopy(e), c3, false)
  }

  function SkipError(data: Bytes, cur: nat): Step<Copy> {
    var (slot, c1) := Get4(data, cur);
    if slot == 0 then Step(Untouched, c1, true)
    else
      var (full, c2) := Get4(data, c1);
      if full == 0 then Step(Untouched, c2, true)
      else
        var c3 := Get4(data, c2).1;
        var (domainLen, c4) := Get4(data, c3);
        var (messageLen, c5) := Get4(data, c4);
        var c6 := GetN(data, c5, domainLen).1;
        var c7 := GetN(data, c6, messageLen).1;
        Step(Untouched, c7, false)
  }

  function DecodeCopyAll(ks: seq<Kind>, slots: seq<bool>, data: Bytes, cur: nat): Step<seq<Copy>>
    requires |slots| == |ks|
  {
    if ks == [] then Step([], cur, true)
    else
      var n := |ks| - 1;
      var init := DecodeCopyAll(ks[..n], slots[..n], data, cur);
      Then(init, DecodeCopy(ks[n], slots[n], data, init.cur))
  }

  /** Do the two decoders deliver the same value? A copied blob ends at its first NUL, so only its place in
      the message is compared. */
  predicate SameValue(c: Copy, p: Param, slot: bool) {
    match p
    case Str(s) => c == StringCopy(s) || (c == Untouched && s.None?)
    case Blob(_, _) => c.StringCopy? || c.Untouched?
    case Bson(d, i) => c == if i && slot then DocCopy(d) else Untouched
    case Error(Some(Some(e))) => c == if slot then ErrorCopy(e) else Untouched
    case Error(_) => c == Untouched
  }

  predicate Agree(a: Step<Copy>, b: Step<Param>, slot: bool) {
    a.cur == b.cur && a.ok == b.ok && SameValue(a.value, b.value, slot)
  }

  predicate AllAgree(a: Step<seq<Copy>>, b: Step<seq<Param>>, slots: seq<bool>) {
    && a.cur == b.cur && a.ok == b.ok && |a.value| == |b.value| == |slots|
    && forall i :: 0 <= i < |slots| ==> SameValue(a.value[i], b.value[i], slots[i])
  }

  lemma DecodersAgreeOnOne(k: Kind, slot: bool, data: Bytes, cur: nat)
    ensures Agree(DecodeCopy(k, slot, data, cur), Decode(k, data, cur), slot)
  {}

  lemma ThenAgrees(a: Step<seq<Copy>>, b: Step<seq<Param>>, slots: seq<bool>, c: Step<Copy>, d: Step<Param>, slot: bool)
    requires AllAgree(a, b, slots) && Agree(c, d, slot)
    ensures AllAgree(Then(a, c), Then(b, d), slots + [slot])
  {}

  /** On every message, well formed or not, both decoders move the cursor alike, return the same result and
      deliver the same strings, documents and errors, whether or not the caller wants the errors. */
  lemma {:induction false} DecodersAgree(ks: seq<Kind>, slots: seq<bool>, data: Bytes, cur: nat)
    requires |slots| == |ks|
    ensures AllAgree(DecodeCopyAll(ks, slots, data, cur), DecodeAll(ks, data, cur), slots)
  {
    if ks != [] {
      var n := |ks| - 1;
      var a, b := DecodeCopyAll(ks[..n], slots[..n], data, cur), DecodeAll(ks[..n], data, cur);
      DecodersAgree(ks[..n], slots[..n], data, cur);
      DecodersAgreeOnOne(ks[n], slots[n], data, b.cur);
      ThenAgrees(a, b, slots[..n], DecodeCopy(ks[n], slots[n], data, b.cur), Decode(ks[n], data, b.cur), slots[n]);
      assert slots[..n] + [slots[n]] == slots;
    }
  }

  lemma CursorsAgree(ks: seq<Kind>, slots: seq<bool>, data: Bytes, cur: nat)
    requires |slots| == |ks|
    ensures DecodeCopyAll(ks, slots, data, cur).cur == DecodeAll(ks, data, cur).cur
  {
    DecodersAgree(ks, slots, data, cur);
  }

  predicate HasError(ps: seq<Param>) { exists i :: 0 <= i < |ps| && ps[i].Error? && ps[i].slot.Some? && ps[i].slot.value.Some? }

  /** With well-formed documents, both decoders return FALSE exactly when an error was encoded, and stop at
      the end of the encoding. */
  lemma FalseIffError(ps: seq<Param>, slots: seq<bool>, data: Bytes, cur: nat)
    requires AllTyped(ps) && NoneHollow(ps) && At(data, cur, EncodeAll(ps)) && |slots| == |ps|
    requires forall i :: 0 <= i < |ps| && ps[i].Bson? && ps[i].initialized && ps[i].doc.Some? && ps[i].doc.value != [] ==>
               BsonOk(ps[i].doc.value)
    ensures DecodeCopyAll(Kinds(ps), slots, data, cur).ok == DecodeAll(Kinds(ps), data, cur).ok == !HasError(ps)
    ensures DecodeCopyAll(Kinds(ps), slots, data, cur).cur == DecodeAll(Kinds(ps), data, cur).cur == cur + |EncodeAll(ps)|
  {
    RoundTrip(ps, data, cur);
    DecodersAgree(Kinds(ps), slots, data, cur);
    assert AllSucceed(ps) <==> !HasError(ps);
  }

  // ----- The loops of the code -----

  lemma {:induction false} AnnouncedPrefix(ps: seq<Param>, i: nat)
    requires i <= |ps|
    ensures Announced(ps[..i]) <= Announced(ps)
    ensures i < |ps| ==> Announced(ps[..i]) + 4 + Length(ps[i]) <= Announced(ps)
    decreases |ps| - i
  {
    if i < |ps| {
      AnnouncedPrefix(ps, i + 1);
      assert ps[..i + 1][..i] == ps[..i];
    } else {
      assert ps[..i] == ps;
    }
  }

  lemma ErrorPieces(e: Err, base: Bytes)
    ensures |ErrorBody(e)| == 12 + |Terminated(e.domain)| + |Terminated(e.message)|
    ensures base + Le4(ToUnsigned(e.code)) + Le4(|e.domain| + 1) + Le4(|e.message| + 1)
            + Terminated(e.domain) + Terminated(e.message) == base + ErrorBody(e)
  {}

  method WriteError(m: Buffer, e: Err)
    requires m.Writing() && Typed(Error(Some(Some(e)))) && m.size >= |m.data| + |ErrorBody(e)|
    modifies m
    ensures m.Writing() && m.data == old(m.data) + ErrorBody(e) && m.size == old(m.size) && m.count == old(m.count)
  {
    ErrorPieces(e, m.data);
    var _ := m.Append4(ToUnsigned(e.code));
    var _ := m.Append4(|e.domain| + 1);
    var _ := m.Append4(|e.message| + 1);
    var _ := m.AppendN(Terminated(e.domain));
    var _ := m.AppendN(Terminated(e.message));
  }

  /** What is written after the length; a document that has been written, or an error, is taken out. */
  method WriteBody(m: Buffer, p: Param) returns (p': Param)
    requires m.Writing() && Typed(p) && Length(p) > 0 && m.size >= |m.data| + Length(p)
    modifies m
    ensures m.Writing() && m.data == old(m.data) + Body(p) && m.size == old(m.size) && m.count == old(m.count)
    ensures p' == Spent(p)
  {
    p' := p;
    match p
    case Str(s) => if s.Some? { var _ := m.AppendN(Terminated(s.value)); }
    case Blob(b, _) => if b.Some? { var _ := m.AppendN(b.value); }
    case Bson(d, i) =>
      if i && d.Some? {
        var _ := m.AppendN(d.value);
        p' := Bson(d, false);
      }
    case Error(None) => var _ := m.Append4(0);
    case Error(Some(None)) =>
      var _ := m.Append4(1);
      var _ := m.Append4(0);
    case Error(Some(Some(e))) =>
      var _ := m.Append4(1);
      var _ := m.Append4(1);
      WriteError(m, e);
      p' := Error(Some(None));
  }

  /** The first pass: adds up the lengths. */
  method Announce(data: array<Param>) returns (len: nat)
    ensures len == Announced(data[..])
  {
    len := 0;
    for i := 0 to data.Length
      invariant len == Announced(data[..i])
    {
      assert data[..i + 1][..i] == data[..i];
      len := len + 4 + Length(data[i]);
    }
    assert data[..data.Length] == data[..];
  }

  lemma RoomForNext(ps: seq<Param>, i: nat)
    requires AllTyped(ps) && i < |ps|
    ensures Typed(ps[i]) && |EncodeAll(ps[..i])| + 4 + Length(ps[i]) <= Announced(ps)
    ensures EncodeAll(ps[..i + 1]) == EncodeAll(ps[..i]) + Encode(ps[i])
  {
    assert ps[..i + 1][..i] == ps[..i];
    AnnouncedPrefix(ps, i);
    WrittenIsAnnounced(ps[..i]);
  }

  /** `base` followed by the encoding of the first `i` parameters, with the announced room still there. */
  ghost predicate Progress(m: Buffer, base: Bytes, ps: seq<Param>, i: nat)
    requires i <= |ps|
    reads m
  { m.Writing() && m.data == base + EncodeAll(ps[..i]) && m.size >= |base| + Announced(ps) }

  /** One round of the second pass. */
  method WriteParam(m: Buffer, p: Param) returns (p': Param)
    requires m.Writing() && Typed(p) && m.size >= |m.data| + 4 + Length(p)
    modifies m
    ensures m.Writing() && m.data == old(m.data) + Encode(p) && m.size == old(m.size) && m.count == old(m.count)
    ensures p' == Spent(p)
  {
    BodyLength(p);
    var _ := m.Append4(Length(p));
    p' := p;
    if Length(p) != 0 {
      p' := WriteBody(m, p);
    }
  }

  method WriteNext(m: Buffer, p: Param, ghost base: Bytes, ghost ps: seq<Param>, ghost i: nat) returns (p': Param)
    requires AllTyped(ps) && i < |ps| && p == ps[i] && Progress(m, base, ps, i)
    modifies m
    ensures Progress(m, base, ps, i + 1) && m.count == old(m.count) && p' == Spent(p)
  {
    RoomForNext(ps, i);
    p' := WriteParam(m, p);
    assert m.data == base + (EncodeAll(ps[..i]) + Encode(p));
  }

  /** j_backend_operation_to_message: every append finds the room the first pass has announced. */
  method ToMessage(m: Buffer, data: array<Param>) returns (ret: bool)
    requires m.Writing() && AllTyped(data[..]) && Announced(data[..]) < MAX
    modifies m, data
    ensures ret && m.Writing() && m.count == old(m.count) + 1
    ensures m.data == old(m.data) + EncodeAll(old(data[..]))
    ensures forall i :: 0 <= i < data.Length ==> data[i] == Spent(old(data[i]))
  {
    ghost var ps := data[..];
    var len := Announce(data);
    m.AddOperation(len);
    WriteAll(m, data, old(m.data), ps);
    assert ps[..|ps|] == ps;
    ret := true;
  }

  /** The second pass. */
  method WriteAll(m: Buffer, data: array<Param>, ghost base: Bytes, ghost ps: seq<Param>)
    requires ps == data[..] && AllTyped(ps) && Progress(m, base, ps, 0)
    modifies m, data
    ensures Progress(m, base, ps, |ps|) && m.count == old(m.count)
    ensures forall k :: 0 <= k < data.Length ==> data[k] == Spent(ps[k])
  {
    for i := 0 to data.Length
      invariant Progress(m, base, ps, i) && m.count == old(m.count)
      invariant forall k :: 0 <= k < i ==> data[k] == Spent(ps[k])
      invariant forall k :: i <= k < data.Length ==> data[k] == ps[k]
    {
      var p' := WriteNext(m, data[i], base, ps, i);
      data[i] := p';
    }
  }

  method ReadError(m: Buffer) returns (slot: Option<Option<Err>>, ok: bool)
    modifies m`current
    ensures Step(slot, m.current, ok) == DecodeError(m.data, old(m.current))
  {
    slot, ok := None, true;
    var present := m.Read4();
    if present != 0 {
      slot := Some(None);
      var full := m.Read4();
      if full != 0 {
        ok := false;
        var code := m.Read4();
        var domainLen := m.Read4();
        var messageLen := m.Read4();
        var domain := m.ReadN(domainLen);
        var message := m.ReadN(messageLen);
        slot := Some(Some(Err(ToSigned(code), CStrAt(domain), CStrAt(message))));
      }
    }
  }

  /** One parameter of the static decoder, unless the program stops. */
  method ReadParam(m: Buffer, k: Kind) returns (p: Param, ok: bool, stopped: bool)
    modifies m`current
    ensures stopped <==> CutShort(k, m.data, old(m.current))
    ensures !stopped ==> Step(p, m.current, ok) == Decode(k, m.data, old(m.current))
  {
    ok, stopped := true, false;
    var len := m.Read4();
    match k
    case StrKind =>
      p := Str(None);
      if len != 0 {
        var b := m.ReadN(len);
        p := Str(if b.Some? then Some(CStr(b.value)) else None);
      }
    case BlobKind =>
      p := Blob(None, 0);
      if len != 0 {
        var b := m.ReadN(len);
        p := Blob(b, len);
      }
    case BsonKind =>
      p := Bson(None, false);
      if len != 0 {
        var b := m.ReadN(len);
        if b.None? { return p, ok, true; }
        p, ok := Bson(b, true), BsonOk(b.value);
      }
    case ErrorKind =>
      p := Error(None);
      if len != 0 {
        var slot;
        slot, ok := ReadError(m);
        p := Error(slot);
      }
  }

  /** j_backend_operation_from_message_static. */
  method FromMessageStatic(m: Buffer, ks: seq<Kind>) returns (ret: bool, ps: seq<Param>, stopped: bool)
    modifies m`current
    ensures stopped <==> Stops(ks, m.data, old(m.current))
    ensures !stopped ==> Step(ps, m.current, ret) == DecodeAll(ks, m.data, old(m.current))
  {
    ret, ps, stopped := true, [], false;
    for i := 0 to |ks|
      invariant !stopped && !Stops(ks[..i], m.data, old(m.current))
      invariant Step(ps, m.current, ret) == DecodeAll(ks[..i], m.data, old(m.current))
    {
      assert ks[..i + 1] == ks[..i] + [ks[i]];
      DecodeLast(ks[..i], ks[i], m.data, old(m.current));
      StopsLast(ks[..i], ks[i], m.data, old(m.current));
      var p, ok;
      p, ok, stopped := ReadParam(m, ks[i]);
      if stopped {
        StopsPrefix(ks, i + 1, m.data, old(m.current));
        return;
      }
      ps := ps + [p];
      ret := ok && ret;
    }
    assert ks[..|ks|] == ks;
  }

  lemma {:induction false} StopsPrefix(ks: seq<Kind>, i: nat, data: Bytes, cur: nat)
    requires i <= |ks| && Stops(ks[..i], data, cur)
    ensures Stops(ks, data, cur)
  {
    if i == |ks| {
      assert ks[..i] == ks;
    } else {
      assert ks[..|ks| - 1][..i] == ks[..i];
      StopsPrefix(ks[..|ks| - 1], i, data, cur);
    }
  }

  method ReadCopyError(m: Buffer, slot: bool) returns (c: Copy, ok: bool)
    modifies m`current
    ensures Step(c, m.current, ok) == if slot then CopyError(m.data, old(m.current)) else SkipError(m.data, old(m.current))
  {
    c, ok := Untouched, true;
    var present := m.Read4();
    if present != 0 {
      var full := m.Read4();
      if full != 0 {
        ok := false;
        var code := m.Read4();
        var domainLen := m.Read4();
        var messageLen := m.Read4();
        var domain := m.ReadN(domainLen);
        var message := m.ReadN(messageLen);
        if slot {
          c := ErrorCopy(Err(ToSigned(code), CStrAt(domain), CStrAt(message)));
        }
      }
    }
  }

  /** One parameter of the copying decoder, unless the program stops. */
  method ReadCopy(m: Buffer, k: Kind, slot: bool) returns (c: Copy, ok: bool, stopped: bool)
    modifies m`current
    ensures stopped <==> CutShort(k, m.data, old(m.current))
    ensures !stopped ==> Step(c, m.current, ok) == DecodeCopy(k, slot, m.data, old(m.current))
  {
    c, ok, stopped := Untouched, true, false;
    var len := m.Read4();
    if len != 0 {
      match k
      case ErrorKind =>
        c, ok := ReadCopyError(m, slot);
      case BsonKind =>
        var b := m.ReadN(len);
        if b.None? { return c, ok, true; }
        ok := BsonOk(b.value);
        if slot {
          c := DocCopy(b);
        }
      case _ =>
        var b := m.ReadN(len);
        c := StringCopy(if b.Some? then Some(CStr(b.value)) else None);
    }
  }

  lemma DecodeCopyLast(ks: seq<Kind>, slots: seq<bool>, i: nat, data: Bytes, cur: nat)
    requires |slots| == |ks| && i < |ks|
    ensures DecodeCopyAll(ks[..i + 1], slots[..i + 1], data, cur) ==
            var init := DecodeCopyAll(ks[..i], slots[..i], data, cur);
            Then(init, DecodeCopy(ks[i], slots[i], data, init.cur))
  {
    assert ks[..i + 1][..i] == ks[..i] && slots[..i + 1][..i] == slots[..i];
  }

  /** j_backend_operation_from_message. It stops where the static decoder stops. */
  method FromMessage(m: Buffer, ks: seq<Kind>, slots: seq<bool>) returns (ret: bool, copies: seq<Copy>, stopped: bool)
    requires |slots| == |ks|
    modifies m`current
    ensures stopped <==> Stops(ks, m.data, old(m.current))
    ensures !stopped ==> Step(copies, m.current, ret) == DecodeCopyAll(ks, slots, m.data, old(m.current))
  {
    ret, copies, stopped := true, [], false;
    ghost var data, start := m.data, m.current;
    for i := 0 to |ks|
      invariant !stopped && m.data == data && !Stops(ks[..i], data, start)
      invariant Step(copies, m.current, ret) == DecodeCopyAll(ks[..i], slots[..i], data, start)
    {
      CopyOneMore(ks, slots, i, data, start, m.current);
      var c, ok;
      c, ok, stopped := ReadCopy(m, ks[i], slots[i]);
      if stopped { return; }
      copies := copies + [c];
      ret := ok && ret;
    }
    assert ks[..|ks|] == ks && slots[..|ks|] == slots;
  }

  lemma CopyOneMore(ks: seq<Kind>, slots: seq<bool>, i: nat, data: Bytes, start: nat, cur: nat)
    requires |slots| == |ks| && i < |ks| && cur == DecodeCopyAll(ks[..i], slots[..i], data, start).cur
    ensures DecodeCopyAll(ks[..i + 1], slots[..i + 1], data, start)
         == Then(DecodeCopyAll(ks[..i], slots[..i], data, start), DecodeCopy(ks[i], slots[i], data, cur))
    ensures Stops(ks[..i + 1], data, start) <==> Stops(ks[..i], data, start) || CutShort(ks[i], data, cur)
    ensures CutShort(ks[i], data, cur) ==> Stops(ks, data, start)
  {
    DecodeCopyLast(ks, slots, i, data, start);
    CursorsAgree(ks[..i], slots[..i], data, start);
    StopsOneMore(ks, i, data, start, cur);
  }

  lemma StopsOneMore(ks: seq<Kind>, i: nat, data: Bytes, start: nat, cur: nat)
    requires i < |ks| && cur == DecodeAll(ks[..i], data, start).cur
    ensures Stops(ks[..i + 1], data, start) <==> Stops(ks[..i], data, start) || CutShort(ks[i], data, cur)
    ensures CutShort(ks[i], data, cur) ==> Stops(ks, data, start)
  {
    assert ks[..i + 1] == ks[..i] + [ks[i]];
    StopsLast(ks[..i], ks[i], data, start);
    if Stops(ks[..i + 1], data, start) { StopsPrefix(ks, i + 1, data, start); }
  }
}
