/**
 The linked list with a tail pointer and a stored length (lib/core/jlist.c) and its iterator
 (lib/core/jlist-iterator.c). The length is an unsigned 32-bit integer.
 */
module List {
  import opened Basics

  class Element {
    var next: Element?
    const data: int

    constructor (data: int, next: Element?)
      ensures this.data == data && this.next == next
    { this.data, this.next := data, next; }
  }

  /** The elements form a chain that ends in NULL. */
  ghost predicate Chain(nodes: seq<Element>)
    reads nodes
  { forall i {:trigger nodes[i].next} :: 0 <= i < |nodes| ==> nodes[i].next == ElementAt(nodes, i + 1) }

  /** The element at a position, NULL where there is none. */
  ghost function ElementAt(nodes: seq<Element>, i: int): Element? { if 0 <= i < |nodes| then nodes[i] else null }

  ghost predicate Holds(nodes: seq<Element>, contents: seq<int>) {
    |contents| == |nodes| && forall i :: 0 <= i < |nodes| ==> nodes[i].data == contents[i]
  }

  lemma ChainPrepend(e: Element, nodes: seq<Element>)
    requires Chain(nodes) && e.next == ElementAt(nodes, 0)
    ensures Chain([e] + nodes)
  {
    var all := [e] + nodes;
    forall i | 0 <= i < |all| ensures all[i].next == ElementAt(all, i + 1) {
      if i > 0 { assert all[i] == nodes[i - 1]; }
    }
  }

  lemma CountUp(n: nat)
    ensures (n % TWO_32 + 1) % TWO_32 == (n + 1) % TWO_32
  {
    var q, r := n / TWO_32, n % TWO_32;
    if r + 1 < TWO_32 {
      Residue(n + 1, q, r + 1);
    } else {
      Residue(n + 1, q + 1, 0);
    }
  }

  lemma Residue(n: nat, q: nat, r: nat)
    requires n == q * TWO_32 + r && r < TWO_32
    ensures n % TWO_32 == r
  {
    assert n % TWO_32 - r == TWO_32 * (q - n / TWO_32);
    assert q == n / TWO_32;
  }

  class List {
    var head: Element?
    var tail: Element?
    var length: nat
    var refCount: int
    ghost var nodes: seq<Element>
    ghost var contents: seq<int>

    ghost predicate Valid()
      reads this, nodes
    {
      && Distinct(nodes) && Chain(nodes) && Holds(nodes, contents)
      && head == ElementAt(nodes, 0)
      && tail == ElementAt(nodes, |nodes| - 1)
      && length == |nodes| % TWO_32
    }

    constructor ()
      ensures Valid() && contents == [] && nodes == [] && refCount == 1
    {
      head, tail, length, refCount := null, null, 0, 1;
      nodes, contents := [], [];
    }

    /** NULL is not appended. */
    method Append(data: Option<int>)
      requires Valid()
      modifies this`head, this`tail, this`length, this`nodes, this`contents, tail
      ensures Valid()
      ensures data.None? ==> nodes == old(nodes) && contents == old(contents)
      ensures data.Some? ==> contents == old(contents) + [data.value]
      ensures data.Some? ==> exists e: Element :: fresh(e) && nodes == old(nodes) + [e]
    {
      if data.None? { return; }
      var element := new Element(data.value, null);
      CountUp(|nodes|);
      length := (length + 1) % TWO_32;
      if tail != null {
        tail.next := element;
      }
      tail := element;
      if head == null {
        head := tail;
      }
      nodes, contents := nodes + [element], contents + [data.value];
    }

    method Prepend(data: Option<int>)
      requires Valid()
      modifies this`head, this`tail, this`length, this`nodes, this`contents
      ensures Valid()
      ensures data.None? ==> nodes == old(nodes) && contents == old(contents)
      ensures data.Some? ==> contents == [data.value] + old(contents)
      ensures data.Some? ==> exists e: Element :: fresh(e) && nodes == [e] + old(nodes)
    {
      if data.None? { return; }
      var element := new Element(data.value, head);
      CountUp(|nodes|);
      ChainPrepend(element, nodes);
      length := (length + 1) % TWO_32;
      head := element;
      if tail == null {
        tail := head;
      }
      nodes, contents := [element] + nodes, [data.value] + contents;
    }

    /** The stored length is the number of elements as long as that number fits. */
    method Length() returns (n: nat)
      requires Valid()
      ensures n == |contents| % TWO_32 && (n == |contents| <==> |contents| < TWO_32)
    { n := length; }

    method GetFirst() returns (data: Option<int>)
      requires Valid()
      ensures data == if contents == [] then None else Some(contents[0])
    { if head != null && tail != null { data := Some(head.data); } else { data := None; } }

    method GetLast() returns (data: Option<int>)
      requires Valid()
      ensures data == if contents == [] then None else Some(contents[|contents| - 1])
    { if head != null && tail != null { data := Some(tail.data); } else { data := None; } }

    /** Every element is passed to the free function, and its memory released, once and in order. */
    method DeleteAll() returns (freed: seq<int>, ghost released: seq<Element>)
      requires Valid()
      modifies this`head, this`tail, this`length, this`nodes, this`contents
      ensures Valid() && contents == [] && nodes == []
      ensures freed == old(contents) && released == old(nodes) && Distinct(released)
    {
      var element := head;
      freed, released := [], [];
      while element != null
        invariant |released| <= |nodes| && released == nodes[..|released|] && freed == contents[..|released|]
        invariant element == ElementAt(nodes, |released|)
        decreases |nodes| - |released|
      {
        assert element == nodes[|released|];
        freed := freed + [element.data];
        released := released + [element];
        element := element.next;
      }
      head, tail, length := null, null, 0;
      nodes, contents := [], [];
    }

    method Ref()
      modifies this`refCount
      ensures refCount == old(refCount) + 1
    { refCount := refCount + 1; }

    /** The elements live until the last reference is dropped. */
    method Unref() returns (freed: seq<int>)
      requires Valid()
      modifies this
      ensures Valid() && refCount == old(refCount) - 1
      ensures old(refCount) == 1 ==> freed == old(contents) && contents == []
      ensures old(refCount) != 1 ==> freed == [] && contents == old(contents) && nodes == old(nodes)
    {
      refCount := refCount - 1;
      freed := [];
      if refCount == 0 {
        ghost var released;
        freed, released := DeleteAll();
      }
    }
  }

  class Iterator {
    const list: List
    var current: Element?
    var first: bool
    ghost var at: nat

    /** The iterator stands at position `i` of the list, or at its end. */
    ghost predicate StandsAt(i: nat)
      reads this, list, list.nodes
    { list.Valid() && (current == null || (i < |list.nodes| && list.nodes[i] == current)) }

    /** What an iterator at position `i` has yet to visit. */
    ghost function Ahead(i: nat): seq<int>
      reads this, list, list.nodes
      requires StandsAt(i)
    { if current == null then [] else list.contents[if first then i else i + 1..] }

    ghost predicate Valid()
      reads this, list, list.nodes
    { StandsAt(at) }

    ghost function ToCome(): seq<int>
      reads this, list, list.nodes
      requires Valid()
    { Ahead(at) }

    constructor (list: List)
      requires list.Valid()
      modifies list`refCount
      ensures Valid() && this.list == list && first && ToCome() == list.contents
      ensures list.refCount == old(list.refCount) + 1
    {
      this.list := list;
      list.Ref();
      current, first, at := list.head, true, 0;
    }

    /** There is no next element to ask for once the end has been reported. */
    method Next() returns (more: bool)
      requires Valid() && (first || current != null)
      modifies this
      ensures Valid() && !first
      ensures more <==> old(ToCome()) != []
      ensures more ==> current != null && current.data == old(ToCome())[0] && ToCome() == old(ToCome())[1..]
      ensures !more ==> current == null
    {
      if first {
        first := false;
      } else {
        current := current.next;
        at := at + 1;
      }
      more := current != null;
    }

    method Get() returns (data: Option<int>)
      ensures data == if current == null then None else Some(current.data)
    { if current == null { data := None; } else { data := Some(current.data); } }
  }

  lemma MoveOne(xs: seq<int>, ys: seq<int>)
    requires ys != []
    ensures xs + ys == xs + [ys[0]] + ys[1..]
  {}

  /** Following a fresh iterator visits exactly what it has to visit, in order, and stops. */
  method Follow(it: Iterator) returns (seen: seq<int>)
    requires it.Valid() && it.first
    modifies it
    ensures seen == old(it.ToCome())
  {
    seen := [];
    ghost var all := it.ToCome();
    ghost var rest := all;
    var next := NextData(it);
    while next.Some?
      invariant all == seen + rest
      invariant next.None? <==> rest == []
      invariant next.Some? ==> it.Valid() && it.current != null && next.value == rest[0] && it.ToCome() == rest[1..]
      decreases |rest|
    {
      MoveOne(seen, rest);
      seen := seen + [next.value];
      rest := rest[1..];
      next := NextData(it);
    }
  }

  method NextData(it: Iterator) returns (data: Option<int>)
    requires it.Valid() && (it.first || it.current != null)
    modifies it
    ensures data.None? <==> old(it.ToCome()) == []
    ensures data.Some? ==> it.Valid() && it.current != null
    ensures data.Some? ==> data.value == old(it.ToCome())[0] && it.ToCome() == old(it.ToCome())[1..]
  {
    var more := it.Next();
    if more { data := it.Get(); } else { data := None; }
  }

  /** Iterating over a list visits exactly its contents. */
  method Visit(list: List) returns (seen: seq<int>)
    requires list.Valid()
    modifies list`refCount
    ensures seen == old(list.contents)
  {
    var it := new Iterator(list);
    seen := Follow(it);
  }

  /** An element that is appended while an iterator is under way will be visited, unless it had reached the end. */
  twostate lemma SurvivesAppend(it: Iterator, e: Element)
    requires old(it.Valid()) && it.list.Valid() && unchanged(it)
    requires it.list.nodes == old(it.list.nodes) + [e] && it.list.contents == old(it.list.contents) + [e.data]
    ensures it.Valid()
    ensures it.ToCome() == if it.current == null then [] else old(it.ToCome()) + [e.data]
  {}

  lemma DropOneMore(x: int, xs: seq<int>, n: nat)
    requires n <= |xs|
    ensures ([x] + xs)[n + 1..] == xs[n..]
  {}

  /** An element that is prepended then will not be visited: the iterator stands one position further on. */
  twostate lemma SurvivesPrepend(it: Iterator, e: Element)
    requires old(it.Valid()) && it.list.Valid() && unchanged(it)
    requires it.list.nodes == [e] + old(it.list.nodes) && it.list.contents == [e.data] + old(it.list.contents)
    ensures it.StandsAt(it.at + 1) && it.Ahead(it.at + 1) == old(it.ToCome())
  {
    if it.current != null {
      assert ([e] + old(it.list.nodes))[it.at + 1] == old(it.list.nodes)[it.at];
      DropOneMore(e.data, old(it.list.contents), if it.first then it.at else it.at + 1);
    }
  }
}
