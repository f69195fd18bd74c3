/**
 The directory walk (lib/core/jdir-iterator.c) and the object listing on top of it (backend_get_all,
 backend_get_by_prefix and backend_iterate in backend/object/posix.c): an explicit stack of open directories
 and of their relative paths, against the recursive walk.

 The file system is a finite tree; a directory may refuse to be opened. An open directory is the sequence of
 entries it has yet to deliver.
 */
module DirIterator {
  import opened Basics

  datatype Tree = File | Dir(canOpen: bool, entries: seq<Entry>)
  datatype Entry = Entry(name: string, tree: Tree)

  /** g_build_filename of a relative path and a name. */
  function Join(path: string, name: string): string { if path == "" then name else path + "/" + name }

  // ----- The recursive walk -----

  function WalkEntry(path: string, e: Entry): seq<string>
    decreases e, 0
  {
    match e.tree
    case File => [Join(path, e.name)]
    case Dir(canOpen, entries) => if canOpen then Walk(Join(path, e.name), entries) else []
  }

  /** The files below `path`, depth first, in the order in which the directories deliver their entries. */
  function Walk(path: string, entries: seq<Entry>): seq<string>
    decreases entries, 1
  { if entries == [] then [] else WalkEntry(path, entries[0]) + Walk(path, entries[1..]) }

  // ----- The stack -----

  /** What the innermost `n` directories of the stack still have to deliver: the last one first. */
  function Rest(dirs: seq<seq<Entry>>, paths: seq<string>): seq<string>
    requires |dirs| == |paths|
  {
    if dirs == [] then []
    else Walk(paths[|dirs| - 1], dirs[|dirs| - 1]) + Rest(dirs[..|dirs| - 1], paths[..|dirs| - 1])
  }

  function Weight(entries: seq<Entry>): nat
    decreases entries
  {
    if entries == [] then 0
    else 1 + (if entries[0].tree.Dir? then Weight(entries[0].tree.entries) else 0) + Weight(entries[1..])
  }

  function TotalWeight(dirs: seq<seq<Entry>>): nat {
    if dirs == [] then 0 else TotalWeight(dirs[..|dirs| - 1]) + Weight(dirs[|dirs| - 1])
  }

  /** Replacing the innermost directory of a stack. */
  lemma Top<T>(xs: seq<T>, x: T)
    requires xs != []
    ensures xs[|xs| - 1 := x][..|xs| - 1] == xs[..|xs| - 1]
    ensures xs[|xs| - 1 := x] == xs[..|xs| - 1] + [x]
    ensures (xs + [x])[..|xs|] == xs
  {}

  /** Reading one entry: a directory that opens goes on top of the stack, everything else is dealt with. */
  lemma ReadEntry(dirs: seq<seq<Entry>>, paths: seq<string>)
    requires |dirs| == |paths| > 0 && dirs[|dirs| - 1] != []
    ensures var n := |dirs| - 1;
            var e, left := dirs[n][0], dirs[n := dirs[n][1..]];
            && Rest(dirs, paths) == WalkEntry(paths[n], e) + Rest(left, paths)
            && TotalWeight(left) < TotalWeight(dirs)
            && (e.tree.Dir? ==>
                  && Rest(left + [e.tree.entries], paths + [Join(paths[n], e.name)])
                     == Walk(Join(paths[n], e.name), e.tree.entries) + Rest(left, paths)
                  && TotalWeight(left + [e.tree.entries]) < TotalWeight(dirs))
  {
    var n := |dirs| - 1;
    var e, left := dirs[n][0], dirs[n := dirs[n][1..]];
    Top(dirs, dirs[n][1..]);
    assert WalkEntry(paths[n], e) + Walk(paths[n], dirs[n][1..]) + Rest(dirs[..n], paths[..n])
        == WalkEntry(paths[n], e) + (Walk(paths[n], dirs[n][1..]) + Rest(dirs[..n], paths[..n]));
    if e.tree.Dir? {
      Top(left, e.tree.entries);
      Top(paths, Join(paths[n], e.name));
    }
  }

  /** Leaving a directory that has delivered everything. */
  lemma Exhausted(dirs: seq<seq<Entry>>, paths: seq<string>)
    requires |dirs| == |paths| > 0 && dirs[|dirs| - 1] == []
    ensures Rest(dirs, paths) == Rest(dirs[..|dirs| - 1], paths[..|dirs| - 1])
    ensures TotalWeight(dirs) == TotalWeight(dirs[..|dirs| - 1])
    ensures |dirs| == 1 ==> Rest(dirs, paths) == []
  {}

  class Iterator {
    var dirs: seq<seq<Entry>>
    var paths: seq<string>
    var current: Option<string>
    var depth: nat

    ghost predicate Valid()
      reads this
    { |dirs| == |paths| == depth + 1 }

    /** The files that are still to come. */
    ghost function ToCome(): seq<string>
      requires Valid()
      reads this
    { Rest(dirs, paths) }

    /** j_dir_iterator_new on a directory that could be opened. */
    constructor (entries: seq<Entry>)
      ensures Valid() && ToCome() == Walk("", entries) && current == None
    {
      dirs, paths, current, depth := [entries], [""], None, 0;
      new;
      assert Rest(dirs[..0], paths[..0]) == [];
    }

    /** Delivers the next file, or reports the end, for ever. */
    method Next() returns (more: bool)
      requires Valid()
      modifies this
      ensures Valid()
      ensures more <==> old(ToCome()) != []
      ensures more ==> current == Some(old(ToCome())[0]) && ToCome() == old(ToCome())[1..]
      ensures !more ==> current == None && ToCome() == []
    {
      ghost var before := ToCome();
      while true
        invariant Valid() && ToCome() == before
        decreases TotalWeight(dirs), depth
      {
        var dir, path := dirs[depth], paths[depth];
        if dir != [] {
          ReadEntry(dirs, paths);
          var e := dir[0];
          current := Some(Join(path, e.name));
          dirs := dirs[depth := dir[1..]];
          if e.tree.Dir? {
            if e.tree.canOpen {
              dirs := dirs + [e.tree.entries];
              paths := paths + [current.value];
              depth := depth + 1;
            }
            assert ToCome() == before;
            continue;
          }
          assert before == [current.value] + ToCome();
        } else {
          current := None;
          Exhausted(dirs, paths);
          if depth > 0 {
            dirs := dirs[..depth];
            paths := paths[..depth];
            depth := depth - 1;
            continue;
          }
        }
        break;
      }
      more := current.Some?;
    }

    /** The file found last; what the caller demands is that there is one. */
    method Get() returns (name: string)
      requires current.Some?
      ensures current == Some(name)
    { name := current.value; }
  }

  // ----- Listing the objects of a namespace -----

  predicate HasPrefix(name: string, prefix: Option<string>) { prefix.Some? ==> prefix.value <= name }

  function Select(names: seq<string>, prefix: Option<string>): seq<string> {
    if names == [] then []
    else (if HasPrefix(names[0], prefix) then [names[0]] else []) + Select(names[1..], prefix)
  }

  /** backend_iterate: the next object with the prefix of the iterator, all objects when it has none. */
  method Iterate(it: Iterator, prefix: Option<string>) returns (name: Option<string>)
    requires it.Valid()
    modifies it
    ensures it.Valid()
    ensures name.None? <==> Select(old(it.ToCome()), prefix) == []
    ensures name.Some? ==> Select(old(it.ToCome()), prefix) == [name.value] + Select(it.ToCome(), prefix)
    ensures |it.ToCome()| < |old(it.ToCome())| || name.None?
  {
    var more := it.Next();
    while more
      invariant it.Valid() && |it.ToCome()| <= |old(it.ToCome())|
      invariant more ==> it.current.Some? && |it.ToCome()| < |old(it.ToCome())|
      invariant more ==> Select(old(it.ToCome()), prefix) == Select([it.current.value] + it.ToCome(), prefix)
      invariant !more ==> Select(old(it.ToCome()), prefix) == []
      decreases if more then 1 + |it.ToCome()| else 0
    {
      var found := it.Get();
      if HasPrefix(found, prefix) { return Some(found); }
      more := it.Next();
    }
    return None;
  }

  function Listed(root: Tree): seq<string> { if root.Dir? && root.canOpen then Walk("", root.entries) else [] }

  /**
   The listing that the server sends: exactly the files of the namespace that have the prefix, in the order of
   the recursive walk.
   */
  method List(root: Tree, prefix: Option<string>) returns (names: seq<string>)
    ensures names == Select(Listed(root), prefix)
  {
    if root.File? || !root.canOpen { return []; }
    var it := new Iterator(root.entries);
    ghost var all := Select(Listed(root), prefix);
    names := [];
    var next := Iterate(it, prefix);
    while next.Some?
      invariant it.Valid() && fresh(it)
      invariant next.Some? ==> all == names + [next.value] + Select(it.ToCome(), prefix)
      invariant next.None? ==> all == names
      decreases if next.Some? then 1 + |it.ToCome()| else 0
    {
      names := names + [next.value];
      ghost var tail := Select(it.ToCome(), prefix);
      next := Iterate(it, prefix);
      assert next.Some? ==> names + tail == names + [next.value] + Select(it.ToCome(), prefix);
    }
  }

  /** What is listed are the files that start with the prefix. */
  lemma {:induction false} SelectsExactly(names: seq<string>, prefix: Option<string>, p: string)
    ensures p in Select(names, prefix) <==> p in names && (prefix.Some? ==> |prefix.value| <= |p| && p[..|prefix.value|] == prefix.value)
  {
    if names != [] {
      SelectsExactly(names[1..], prefix, p);
      assert names == [names[0]] + names[1..];
      assert prefix.Some? ==> (prefix.value <= p <==> |prefix.value| <= |p| && p[..|prefix.value|] == prefix.value);
    }
  }

  /** They are listed in the order of the walk: a listing of one part, then of the other. */
  lemma {:induction false} SelectsInOrder(a: seq<string>, b: seq<string>, prefix: Option<string>)
    ensures Select(a + b, prefix) == Select(a, prefix) + Select(b, prefix)
  {
    if a == [] {
      assert a + b == b;
    } else {
      SelectsInOrder(a[1..], b, prefix);
      assert (a + b)[1..] == a[1..] + b && (a + b)[0] == a[0];
      var kept := if HasPrefix(a[0], prefix) then [a[0]] else [];
      assert kept + (Select(a[1..], prefix) + Select(b, prefix)) == kept + Select(a[1..], prefix) + Select(b, prefix);
    }
  }

  // ----- What is listed -----

  /** There is a file at the end of the names `ns`, and every directory on the way can be opened. */
  predicate Reaches(entries: seq<Entry>, ns: seq<string>)
    decreases |ns|
  {
    exists e <- entries :: ns != [] && e.name == ns[0] &&
      match e.tree
      case File => |ns| == 1
      case Dir(canOpen, below) => canOpen && Reaches(below, ns[1..])
  }

  function PathOf(path: string, ns: seq<string>): string
    decreases |ns|
  { if ns == [] then path else PathOf(Join(path, ns[0]), ns[1..]) }

  /** The walk keeps to the order in which a directory delivers its entries: all below one comes before all below a
      later one. */
  lemma {:induction false} WalkInReadOrder(path: string, a: seq<Entry>, b: seq<Entry>)
    ensures Walk(path, a + b) == Walk(path, a) + Walk(path, b)
    decreases |a|
  {
    if a == [] {
      assert a + b == b;
    } else {
      WalkInReadOrder(path, a[1..], b);
      assert (a + b)[1..] == a[1..] + b && (a + b)[0] == a[0];
      assert WalkEntry(path, a[0]) + (Walk(path, a[1..]) + Walk(path, b)) == WalkEntry(path, a[0]) + Walk(path, a[1..]) + Walk(path, b);
    }
  }

  /** Names with slashes between them. */
  function Slashed(ns: seq<string>): string
    requires ns != []
  { if |ns| == 1 then ns[0] else ns[0] + "/" + Slashed(ns[1..]) }

  lemma {:induction false} PathIsSlashed(path: string, ns: seq<string>)
    requires ns != [] && (forall n <- ns :: n != "")
    ensures PathOf(path, ns) == if path == "" then Slashed(ns) else path + "/" + Slashed(ns)
    decreases |ns|
  {
    if |ns| == 1 {
      assert ns[1..] == [] && PathOf(path, ns) == PathOf(Join(path, ns[0]), []);
    } else {
      assert forall n <- ns[1..] :: n in ns;
      PathIsSlashed(Join(path, ns[0]), ns[1..]);
      assert ns[0] in ns && Join(path, ns[0]) != "";
      assert (path + "/" + ns[0]) + "/" + Slashed(ns[1..]) == path + "/" + (ns[0] + "/" + Slashed(ns[1..]));
    }
  }

  /** A file that can be reached is delivered. */
  lemma {:induction false} WalkComplete(path: string, entries: seq<Entry>, ns: seq<string>)
    requires Reaches(entries, ns)
    ensures PathOf(path, ns) in Walk(path, entries)
    decreases |ns|
  {
    var e :| e in entries && e.name == ns[0] &&
      match e.tree
      case File => |ns| == 1
      case Dir(canOpen, below) => canOpen && Reaches(below, ns[1..]);
    if e.tree.Dir? {
      WalkComplete(Join(path, e.name), e.tree.entries, ns[1..]);
    } else {
      assert ns[1..] == [] && PathOf(path, ns) == PathOf(Join(path, e.name), []);
    }
    WalkHasEntry(path, entries, e, PathOf(path, ns));
  }

  lemma WalkHasEntry(path: string, entries: seq<Entry>, e: Entry, p: string)
    requires e in entries && p in WalkEntry(path, e)
    ensures p in Walk(path, entries)
    decreases |entries|
  {
    if e != entries[0] { WalkHasEntry(path, entries[1..], e, p); }
  }

  /** What is delivered can be reached. */
  lemma {:induction false} WalkSound(path: string, entries: seq<Entry>, p: string) returns (ns: seq<string>)
    requires p in Walk(path, entries)
    ensures Reaches(entries, ns) && p == PathOf(path, ns)
    decreases entries
  {
    var e := entries[0];
    if p in WalkEntry(path, e) {
      if e.tree.Dir? {
        var below := WalkSound(Join(path, e.name), e.tree.entries, p);
        ns := [e.name] + below;
        assert ns[1..] == below;
      } else {
        ns := [e.name];
      }
      assert e in entries;
    } else {
      ns := WalkSound(path, entries[1..], p);
      assert forall f <- entries[1..] :: f in entries;
    }
  }

  /** Exactly the files that can be reached are listed. */
  lemma {:induction false} ListsExactly(entries: seq<Entry>, p: string)
    ensures p in Walk("", entries) <==> exists ns :: Reaches(entries, ns) && p == PathOf("", ns)
  {
    if p in Walk("", entries) {
      var ns := WalkSound("", entries, p);
    }
    if ns :| Reaches(entries, ns) && p == PathOf("", ns) {
      WalkComplete("", entries, ns);
    }
  }

  // ----- No object is listed twice -----

  predicate GoodName(name: string) { name != "" && '/' !in name }

  /** What a file system guarantees: no empty name, no slash in a name, no name twice in a directory. */
  predicate WellFormed(entries: seq<Entry>)
    decreases entries
  {
    entries == [] ||
    var e := entries[0];
    && GoodName(e.name)
    && (forall f <- entries[1..] :: f.name != e.name)
    && (e.tree.Dir? ==> WellFormed(e.tree.entries))
    && WellFormed(entries[1..])
  }

  predicate Below(p: string, path: string) { path != "" && (p == path || path + "/" <= p) }

  /** A path lies below at most one of the entries of a directory. */
  lemma BelowOne(p: string, path: string, a: string, b: string)
    requires GoodName(a) && GoodName(b) && Below(p, Join(path, a)) && Below(p, Join(path, b))
    ensures a == b
  {
    var pre := if path == "" then "" else path + "/";
    assert Join(path, a) == pre + a && Join(path, b) == pre + b;
    Segment(p, pre, a);
    Segment(p, pre, b);
    assert !(|a| < |b|) && !(|b| < |a|);
  }

  lemma Segment(p: string, pre: string, a: string)
    requires a != "" && Below(p, pre + a)
    ensures |pre| + |a| <= |p| && p[|pre|..|pre| + |a|] == a
    ensures |p| == |pre| + |a| || p[|pre| + |a|] == '/'
    ensures forall i :: 0 <= i < |a| ==> p[|pre| + i] == a[i]
  {
    assert p[..|pre| + |a|] == pre + a;
    forall i | 0 <= i < |a| ensures p[|pre| + i] == a[i] { assert (pre + a)[|pre| + i] == a[i]; }
  }

  lemma BelowTrans(p: string, path: string, name: string)
    requires path != "" && Below(p, Join(path, name))
    ensures Below(p, path)
  {
    assert Join(path, name) == path + "/" + name;
    assert p[..|path| + 1 + |name|] == path + "/" + name;
    assert p[..|path| + 1] == path + "/";
  }

  /** All that is found in an entry lies below it. */
  lemma {:induction false} EntryBelow(path: string, e: Entry, p: string)
    requires GoodName(e.name) && (e.tree.Dir? ==> WellFormed(e.tree.entries)) && p in WalkEntry(path, e)
    ensures Below(p, Join(path, e.name))
    decreases e, 0
  {
    if e.tree.Dir? { WalkBelow(Join(path, e.name), e.tree.entries, p); }
  }

  lemma {:induction false} WalkBelow(path: string, entries: seq<Entry>, p: string)
    requires path != "" && WellFormed(entries) && p in Walk(path, entries)
    ensures Below(p, path)
    decreases entries, 1
  {
    if p in WalkEntry(path, entries[0]) {
      EntryBelow(path, entries[0], p);
      BelowTrans(p, path, entries[0].name);
    } else {
      WalkBelow(path, entries[1..], p);
    }
  }

  /** A path found in a later entry is not found in an earlier one. */
  lemma {:induction false} Apart(path: string, e: Entry, entries: seq<Entry>, p: string)
    requires WellFormed([e] + entries) && p in WalkEntry(path, e)
    ensures p !in Walk(path, entries)
    decreases |entries|
  {
    assert ([e] + entries)[1..] == entries;
    if entries != [] {
      var f := entries[0];
      assert f in entries;
      if p in WalkEntry(path, f) {
        EntryBelow(path, e, p);
        EntryBelow(path, f, p);
        BelowOne(p, path, e.name, f.name);
      }
      assert ([e] + entries[1..])[1..] == entries[1..];
      Apart(path, e, entries[1..], p);
    }
  }

  lemma DistinctConcat(xs: seq<string>, ys: seq<string>)
    requires Distinct(xs) && Distinct(ys) && forall x <- xs :: x !in ys
    ensures Distinct(xs + ys)
  {
    forall i, j | 0 <= i < j < |xs + ys| ensures (xs + ys)[i] != (xs + ys)[j] {
      if i < |xs| <= j { assert xs[i] !in ys && ys[j - |xs|] in ys; }
    }
  }

  /** In a file system, every file is delivered once. */
  lemma {:induction false} DeliveredOnce(path: string, entries: seq<Entry>)
    requires WellFormed(entries)
    ensures Distinct(Walk(path, entries))
    decreases entries
  {
    if entries != [] {
      var e := entries[0];
      if e.tree.Dir? { DeliveredOnce(Join(path, e.name), e.tree.entries); }
      DeliveredOnce(path, entries[1..]);
      assert [e] + entries[1..] == entries;
      assert Distinct(WalkEntry(path, e));
      forall p | p in WalkEntry(path, e) ensures p !in Walk(path, entries[1..]) { Apart(path, e, entries[1..], p); }
      DistinctConcat(WalkEntry(path, e), Walk(path, entries[1..]));
    }
  }
}
