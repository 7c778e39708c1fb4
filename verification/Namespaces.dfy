/** The directory tree a file operation works on: a finite map from paths to objects, closed
    under parents, with the two structural changes the engine relies on, removal of a leaf and
    relocation of a whole subtree. */
module Namespaces {
  import opened Common

  /** An absolute path as its list of components; the root is the empty list. */
  type Path = seq<string>

  /** An operation token. Zero stands for the sixteen zero bytes of an unmarked object. */
  type Token = nat

  datatype Identity = Identity(device: nat, inode: nat, generation: nat, token: Token) {
    predicate Valid() { inode != 0 && generation != 0 }
    predicate HasToken() { token != 0 }
    /** A full identity, or a bare token announcing an object that may not exist yet. */
    predicate IntentValid() {
      Valid() || (device == 0 && inode == 0 && generation == 0 && HasToken())
    }
  }

  const NO_IDENTITY := Identity(0, 0, 0, 0)

  function TokenOnly(t: Token): Identity { Identity(0, 0, 0, t) }

  predicate SameObject(a: Identity, b: Identity) { a.Valid() && b.Valid() && a == b }

  datatype NodeKind = FileNode | DirectoryNode | SymlinkNode

  datatype Node = Node(id: Identity, kind: NodeKind, content: seq<bv8>)

  type Namespace = map<Path, Node>

  function Parent(p: Path): Path
    requires p != []
  {
    p[..|p| - 1]
  }

  /** Every object other than the root lives in a parent that exists. */
  predicate Closed(ns: Namespace) {
    forall p {:trigger Parent(p)} :: p in ns && p != [] ==> Parent(p) in ns
  }

  predicate NoChildren(ns: Namespace, p: Path) {
    forall q :: q in ns ==> !(p < q)
  }

  /** A path whose slot is free has nothing below it. */
  lemma {:induction false} FreeMeansEmptyBelow(ns: Namespace, p: Path, q: Path)
    requires Closed(ns) && p !in ns && p <= q
    ensures q !in ns
    decreases |q|
  {
    if q in ns {
      assert q != p;
      assert p <= Parent(q);
      FreeMeansEmptyBelow(ns, p, Parent(q));
    }
  }

  lemma FreeHasNoChildren(ns: Namespace, p: Path)
    requires Closed(ns) && p !in ns
    ensures NoChildren(ns, p)
  {
    forall q | q in ns ensures !(p < q) {
      if p < q { FreeMeansEmptyBelow(ns, p, q); }
    }
  }

  /** Removing an object: it must exist, be of the expected sort and have no children. */
  function RemoveNode(ns: Namespace, p: Path, directory: bool): Option<Namespace> {
    if p in ns && ns[p].kind.DirectoryNode? == directory && NoChildren(ns, p)
    then Some(ns - {p})
    else None
  }

  lemma RemoveKeepsClosed(ns: Namespace, p: Path, directory: bool)
    requires Closed(ns) && RemoveNode(ns, p, directory).Some?
    ensures Closed(ns - {p})
  {
    forall q | q in ns - {p} && q != [] ensures Parent(q) in ns - {p} {
      assert Parent(q) == p ==> p < q;
    }
  }

  /** Creating an object in a free slot of an existing directory. */
  predicate CanCreate(ns: Namespace, p: Path) {
    p != [] && p !in ns && Parent(p) in ns
  }

  lemma CreateThenRemove(ns: Namespace, p: Path, node: Node)
    requires Closed(ns) && CanCreate(ns, p)
    ensures Closed(ns[p := node])
    ensures RemoveNode(ns[p := node], p, node.kind.DirectoryNode?) == Some(ns)
  {
    FreeHasNoChildren(ns, p);
    assert ns[p := node] - {p} == ns;
  }

  // Relocation of a subtree.

  predicate CanMove(ns: Namespace, a: Path, b: Path) {
    a in ns && b !in ns && b != [] && Parent(b) in ns && !(a <= b)
  }

  function Relocate(p: Path, a: Path, b: Path): Path {
    if a <= p then b + p[|a|..] else p
  }

  function MovedKeys(ns: Namespace, a: Path, b: Path): set<Path> {
    set p | p in ns :: Relocate(p, a, b)
  }

  /** The namespace after renaming `a`, with everything below it, to the free path `b`. */
  function Moved(ns: Namespace, a: Path, b: Path): (r: Namespace) {
    map q | q in MovedKeys(ns, a, b) && Relocate(q, b, a) in ns :: ns[Relocate(q, b, a)]
  }

  lemma MovedAt(ns: Namespace, a: Path, b: Path, q: Path)
    requires Closed(ns) && CanMove(ns, a, b)
    ensures q in Moved(ns, a, b) <==>
            if b <= q then a + q[|b|..] in ns else q in ns && !(a <= q)
    ensures q in Moved(ns, a, b) ==> Moved(ns, a, b)[q] == ns[Relocate(q, b, a)]
  {
    if b <= q {
      FreeMeansEmptyBelow(ns, b, q);
      var p := a + q[|b|..];
      assert p[|a|..] == q[|b|..];
      assert Relocate(p, a, b) == q;
      assert Relocate(q, b, a) == p;
    } else {
      assert Relocate(q, b, a) == q;
      if q in MovedKeys(ns, a, b) {
        var p :| p in ns && q == Relocate(p, a, b);
      }
    }
  }

  lemma MovedEnds(ns: Namespace, a: Path, b: Path)
    requires Closed(ns) && CanMove(ns, a, b)
    ensures a !in Moved(ns, a, b)
    ensures b in Moved(ns, a, b) && Moved(ns, a, b)[b] == ns[a]
  {
    MovedAt(ns, a, b, a);
    MovedAt(ns, a, b, b);
    if b <= a { FreeMeansEmptyBelow(ns, b, a); }
    assert b[|b|..] == [] && a + [] == a;
  }

  lemma MovedKeepsClosed(ns: Namespace, a: Path, b: Path)
    requires Closed(ns) && CanMove(ns, a, b)
    ensures Closed(Moved(ns, a, b))
  {
    var m := Moved(ns, a, b);
    forall q | q in m && q != [] ensures Parent(q) in m {
      MovedAt(ns, a, b, q);
      MovedAt(ns, a, b, Parent(q));
      if b <= q {
        if q == b {
          assert a <= Parent(b) ==> a <= b;
          assert !(b <= Parent(b));
        } else {
          assert b <= Parent(q);
          var p := a + q[|b|..];
          assert Parent(p) == a + Parent(q)[|b|..];
        }
      } else {
        assert !(b <= Parent(q)) && !(a <= Parent(q));
      }
    }
  }

  lemma CanMoveBack(ns: Namespace, a: Path, b: Path)
    requires Closed(ns) && CanMove(ns, a, b) && a != []
    ensures CanMove(Moved(ns, a, b), b, a)
  {
    MovedEnds(ns, a, b);
    if b <= a { FreeMeansEmptyBelow(ns, b, a); }
    MovedAt(ns, a, b, Parent(a));
    assert b <= Parent(a) ==> b <= a;
    assert a <= Parent(a) ==> |a| <= |a| - 1;
  }

  /** Moving a subtree to a free path and back is the identity. */
  lemma MoveThereAndBack(ns: Namespace, a: Path, b: Path)
    requires Closed(ns) && CanMove(ns, a, b) && a != []
    ensures CanMove(Moved(ns, a, b), b, a)
    ensures Moved(Moved(ns, a, b), b, a) == ns
  {
    CanMoveBack(ns, a, b);
    MovedKeepsClosed(ns, a, b);
    forall q ensures AgreeAt(Moved(Moved(ns, a, b), b, a), ns, q) {
      RoundTripAt(ns, a, b, q);
    }
    SameMap(Moved(Moved(ns, a, b), b, a), ns);
  }

  ghost predicate AgreeAt(r: Namespace, ns: Namespace, q: Path) {
    && (q in r <==> q in ns)
    && (q in ns ==> r[q] == ns[q])
  }

  lemma SameMap(r: Namespace, ns: Namespace)
    requires forall q :: AgreeAt(r, ns, q)
    ensures r == ns
  {
    forall q ensures q in r <==> q in ns { assert AgreeAt(r, ns, q); }
    forall q | q in ns ensures r[q] == ns[q] { assert AgreeAt(r, ns, q); }
  }

  lemma RoundTripAt(ns: Namespace, a: Path, b: Path, q: Path)
    requires Closed(ns) && CanMove(ns, a, b)
    requires Closed(Moved(ns, a, b)) && CanMove(Moved(ns, a, b), b, a)
    ensures AgreeAt(Moved(Moved(ns, a, b), b, a), ns, q)
  {
    var m := Moved(ns, a, b);
    MovedAt(m, b, a, q);
    if a <= q {
      var t := b + q[|a|..];
      assert t[|b|..] == q[|a|..];
      assert a + t[|b|..] == q;
      MovedAt(ns, a, b, t);
    } else {
      MovedAt(ns, a, b, q);
      if b <= q { FreeMeansEmptyBelow(ns, b, q); }
    }
  }
}
