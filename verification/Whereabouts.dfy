/** Where objects are while an operation runs: what a deed may do to the objects of others, and that
    moving loses nothing and duplicates nothing. */
module Whereabouts {
  import opened Common
  import opened Namespaces
  import opened UndoSpec
  import opened FileBackend
  import opened FileOperations

  // The objects of others.

  /** No deed changes the object under a name that it keeps, except a copy what it is writing. */
  lemma NeverOverwritten(d: Deed, made: set<Identity>, p: Path)
    requires Fair(d, made) && Closed(d.before) && p in d.before && p in d.after
    ensures d.after[p] == d.before[p] || (d.act == Write(p) && d.record.head.operation.Copy? && d.before[p].id in made)
  {
    if d.act.Rename? {
      var a, b := d.act.from, d.act.to;
      MovedAt(d.before, a, b, p);
      if b <= p { FreeMeansEmptyBelow(d.before, b, p); }
    }
  }

  /** Where a deed leaves the object at `p`. */
  function Went(d: Deed, p: Path): Path {
    match d.act
    case Rename(a, b) => Relocate(p, a, b)
    case Publish(a, b) => if p == a && a !in d.after then b else p
    case _ => p
  }

  /** An object that a copy did not make survives each of its deeds unchanged. It keeps its name
      unless it is moved with an announced backup or its reversal, or stands at the temporary path
      when that is published. */
  lemma ForeignSurvives(d: Deed, made: set<Identity>, p: Path)
    requires Fair(d, made) && d.record.head.operation.Copy? && Closed(d.before)
    requires p in d.before && d.before[p].id !in made
    ensures Went(d, p) in d.after && d.after[Went(d, p)] == d.before[p]
    ensures Went(d, p) != p ==>
      || (d.act.Rename? && d.act.from <= p &&
          exists j :: 0 <= j < |d.record.entries| &&
                      RenameOf(Copy, d.record.entries[j], d.act.from, d.act.to, d.before[d.act.from].id))
      || (d.act.Publish? && p == d.act.from == d.record.tempPath && d.record.tempCreated)
  {
    match d.act
    case Rename(a, b) =>
      var q := Relocate(p, a, b);
      MovedAt(d.before, a, b, q);
      if a <= p {
        assert q[|b|..] == p[|a|..] && a + p[|a|..] == p;
      } else if b <= p {
        FreeMeansEmptyBelow(d.before, b, p);
      }
    case Publish(a, b) =>
      var j :| 0 <= j < |d.record.entries| && PublicationOf(d.record, d.record.entries[j], a, b);
    case _ =>
  }

  /** Publication goes by path. The destination gets the recorded temporary object exactly when the
      temporary path still holds it, and what the copy did not make is then never what is published. */
  lemma PublicationTakesWhatIsThere(d: Deed, issued: set<Token>, made: set<Identity>)
    requires Fair(d, made) && d.act.Publish? && Own(d.record, issued) && Unforged(d.before, issued, made)
    ensures d.act.to in d.after && d.after[d.act.to] == d.before[d.act.from]
    ensures d.after[d.act.to].id == d.record.tempId <==> d.before[d.act.from].id == d.record.tempId
    ensures d.before[d.act.from].id !in made ==> d.before[d.act.from].id != d.record.tempId
  {
    var j :| 0 <= j < |d.record.entries| && PublicationOf(d.record, d.record.entries[j], d.act.from, d.act.to);
  }

  /** So, whatever others do meanwhile, no change in the whole log of a copy removes or alters an
      object it did not make. */
  lemma ForeignSpared(w: World, r: Record, k: nat, p: Path)
    requires Sound(w, r) && r.head.operation.Copy? && k < |w.deeds|
    requires p in w.deeds[k].before && w.deeds[k].before[p].id !in w.made
    ensures Went(w.deeds[k], p) in w.deeds[k].after && w.deeds[k].after[Went(w.deeds[k], p)] == w.deeds[k].before[p]
  {
    assert SameJob(w.saved, w.deeds[k].record);
    ForeignSurvives(w.deeds[k], w.made, p);
  }

  ghost predicate Present(ns: Namespace, id: Identity) { exists p :: p in ns && ns[p].id == id }

  /** And an object of others, published by mistake or not, is there as long as others do not remove it
      themselves between two changes of the copy. */
  lemma {:induction false} ForeignLives(w: World, r: Record, id: Identity, n: nat)
    requires Sound(w, r) && r.head.operation.Copy? && n <= |w.deeds|
    requires id !in w.made && Present(w.start.ns, id)
    requires forall k: nat :: k < n && Present(NsAt(w.start.ns, w.deeds, k), id) ==> Present(w.deeds[k].before, id)
    ensures Present(NsAt(w.start.ns, w.deeds, n), id)
  {
    hide Sound, Present;
    if n != 0 {
      ForeignLives(w, r, id, n - 1);
      ForeignStays(w, r, id, n - 1);
    }
  }

  lemma ForeignStays(w: World, r: Record, id: Identity, k: nat)
    requires Sound(w, r) && r.head.operation.Copy? && k < |w.deeds|
    requires id !in w.made && Present(w.deeds[k].before, id)
    ensures Present(w.deeds[k].after, id)
  {
    hide Sound;
    var p :| p in w.deeds[k].before && w.deeds[k].before[p].id == id;
    ForeignSpared(w, r, k, p);
  }

  // Moving.

  ghost predicate TokenFree(ns: Namespace) { forall p :: p in ns ==> !ns[p].id.HasToken() }

  /** What is in `ns` corresponds one to one to what was in `x`: `f` says where an object went and `g`
      where it came from. Only objects that carry a token may be missing. */
  ghost predicate Rearrangement(f: map<Path, Path>, g: map<Path, Path>, x: Namespace, ns: Namespace) {
    && f.Keys <= x.Keys && g.Keys == ns.Keys
    && (forall p :: p in x && !x[p].id.HasToken() ==> p in f)
    && (forall p :: p in f ==> f[p] in ns && ns[f[p]] == x[p] && g[f[p]] == p)
    && (forall q :: q in ns ==> g[q] in f && f[g[q]] == q)
  }

  /** Every object of `x` without a token is in `ns` under exactly one name; no object of `x` has two
      names in it; and there is nothing else. */
  ghost predicate Rearranged(x: Namespace, ns: Namespace) {
    exists f, g :: Rearrangement(f, g, x, ns)
  }

  lemma Unmoved(ns: Namespace)
    ensures Rearranged(ns, ns)
  {
    var f := map p | p in ns :: p;
    assert Rearrangement(f, f, ns, ns);
  }

  lemma MovedRearranges(ns: Namespace, a: Path, b: Path)
    requires Closed(ns) && CanMove(ns, a, b)
    ensures Rearranged(ns, Moved(ns, a, b))
  {
    var m := Moved(ns, a, b);
    var f := map p | p in ns :: Relocate(p, a, b);
    var g := map q | q in m :: Relocate(q, b, a);
    forall p | p in ns ensures f[p] in m && m[f[p]] == ns[p] && Relocate(f[p], b, a) == p {
      MovedAt(ns, a, b, f[p]);
      if a <= p {
        assert f[p][|b|..] == p[|a|..] && a + p[|a|..] == p;
      } else if b <= p {
        FreeMeansEmptyBelow(ns, b, p);
      }
    }
    forall q | q in m ensures g[q] in ns && Relocate(g[q], a, b) == q {
      MovedAt(ns, a, b, q);
      if b <= q { assert g[q][|a|..] == q[|b|..] && b + q[|b|..] == q; }
    }
    assert Rearrangement(f, g, ns, m);
  }

  lemma RemovedRearranges(ns: Namespace, p: Path)
    requires p in ns && ns[p].id.HasToken()
    ensures Rearranged(ns, ns - {p})
  {
    var f := map q | q in ns - {p} :: q;
    assert Rearrangement(f, f, ns, ns - {p});
  }

  lemma RearrangedThrough(x: Namespace, y: Namespace, z: Namespace)
    requires Rearranged(x, y) && Rearranged(y, z)
    ensures Rearranged(x, z)
  {
    var f, g :| Rearrangement(f, g, x, y);
    var f', g' :| Rearrangement(f', g', y, z);
    hide Rearrangement;
    var there, back := Composed(f, g, f', g', x, y, z);
  }

  lemma Composed(f: map<Path, Path>, g: map<Path, Path>, f': map<Path, Path>, g': map<Path, Path>,
                 x: Namespace, y: Namespace, z: Namespace)
    returns (there: map<Path, Path>, back: map<Path, Path>)
    requires Rearrangement(f, g, x, y) && Rearrangement(f', g', y, z)
    ensures Rearrangement(there, back, x, z)
  {
    there := map p | p in f && f[p] in f' :: f'[f[p]];
    back := map q | q in z :: g[g'[q]];
    forall p | p in x && !x[p].id.HasToken() ensures p in there {
      assert f[p] in y && y[f[p]] == x[p];
    }
    forall p | p in there ensures there[p] in z && z[there[p]] == x[p] && back[there[p]] == p {
      assert f[p] in y;
    }
    forall q | q in z ensures back[q] in there && there[back[q]] == q {
      assert g'[q] in y;
    }
  }

  /** Rearranging brings no object that was not there. */
  lemma RearrangedFrom(x: Namespace, ns: Namespace, q: Path) returns (p: Path)
    requires Rearranged(x, ns) && q in ns
    ensures p in x && x[p] == ns[q]
  {
    var f, g :| Rearrangement(f, g, x, ns);
    p := g[q];
  }

  /** And it loses none without a token, nor gives any object a second name. */
  lemma RearrangedTo(x: Namespace, ns: Namespace, p: Path)
    requires Rearranged(x, ns) && p in x
    requires forall s :: s in x && x[s] == x[p] ==> s == p
    ensures !x[p].id.HasToken() ==> exists s :: s in ns && ns[s] == x[p]
    ensures forall s, t :: s in ns && t in ns && ns[s] == ns[t] == x[p] ==> s == t
  {
    var f, g :| Rearrangement(f, g, x, ns);
    if !x[p].id.HasToken() { assert ns[f[p]] == x[p]; }
    forall s, t | s in ns && t in ns && ns[s] == ns[t] == x[p] ensures s == t {
      assert x[g[s]] == ns[f[g[s]]] && x[g[t]] == ns[f[g[t]]];
    }
  }

  // The same for each entry of a plan whose paths are independent of each other.

  predicate Separate(p: Path, q: Path) { !(p <= q) && !(q <= p) }

  predicate UnrelatedPair(a: Task, b: Task) {
    Separate(a.source, b.source) && Separate(a.source, b.dest) && Separate(a.dest, b.source) && Separate(a.dest, b.dest)
  }

  /** No path of the plan lies above another. */
  ghost predicate Unrelated(entries: seq<Entry>) {
    && (forall j :: 0 <= j < |entries| ==> Separate(entries[j].task.source, entries[j].task.dest))
    && (forall j, k :: 0 <= j < |entries| && 0 <= k < |entries| && j != k ==>
          UnrelatedPair(entries[j].task, entries[k].task))
  }

  function At(ns: Namespace, p: Path): Option<Node> { if p in ns then Some(ns[p]) else None }

  /** The subtree at `p` is the one that `x` has at `q`. */
  ghost predicate SameTree(ns: Namespace, p: Path, x: Namespace, q: Path) {
    forall t :: At(ns, p + t) == At(x, q + t)
  }

  /** Source and destination, with everything below them, are as they were. */
  ghost predicate Straight(task: Task, x: Namespace, ns: Namespace) {
    SameTree(ns, task.source, x, task.source) && SameTree(ns, task.dest, x, task.dest)
  }

  /** They have changed places. */
  ghost predicate Crossed(task: Task, x: Namespace, ns: Namespace) {
    SameTree(ns, task.source, x, task.dest) && SameTree(ns, task.dest, x, task.source)
  }

  /** The object is at its source, or it has gone to its destination, which was free. */
  ghost predicate InOnePlace(task: Task, x: Namespace, ns: Namespace) {
    Straight(task, x, ns) || (task.dest !in x && Crossed(task, x, ns))
  }

  predicate MarkedAt(x: Namespace, p: Path) { p in x && x[p].id.HasToken() }

  /** The object carried a token, and rolling back has removed it from its destination. */
  ghost predicate TakenAway(task: Task, x: Namespace, ns: Namespace) {
    && MarkedAt(x, task.source) && task.dest !in x
    && forall t :: At(ns, task.source + t) == None == At(ns, task.dest + t)
  }

  /** The path has nothing to do with the plan. */
  predicate Beside(entries: seq<Entry>, p: Path) {
    forall j :: 0 <= j < |entries| ==> !(entries[j].task.source <= p) && !(entries[j].task.dest <= p)
  }

  /** Every entry is in one place unless it carried a token, and everything else is where it was. */
  ghost predicate InPlaces(entries: seq<Entry>, x: Namespace, ns: Namespace) {
    && (forall j :: 0 <= j < |entries| ==>
          InOnePlace(entries[j].task, x, ns) || TakenAway(entries[j].task, x, ns))
    && (forall p :: Beside(entries, p) ==> At(ns, p) == At(x, p))
  }

  /** What that means for an object that is to be moved to a free name: it is never at its source and
      at its destination at once, and unless it carries a token it is always at one of them, unchanged,
      and so is everything below it. */
  lemma ExactlyOnePlace(entries: seq<Entry>, j: nat, x: Namespace, ns: Namespace, t: Path)
    requires InPlaces(entries, x, ns) && j < |entries|
    requires entries[j].task.source in x && entries[j].task.dest !in x
    requires entries[j].task.source + t in x && entries[j].task.dest + t !in x
    ensures
      var a, b := entries[j].task.source, entries[j].task.dest;
      && !(a in ns && b in ns) && (!x[a].id.HasToken() ==> a in ns || b in ns)
      && (a in ns ==> a + t in ns && b + t !in ns && ns[a + t] == x[a + t])
      && (b in ns ==> b + t in ns && a + t !in ns && ns[b + t] == x[a + t])
  {
    var a, b := entries[j].task.source, entries[j].task.dest;
    assert InOnePlace(entries[j].task, x, ns) || TakenAway(entries[j].task, x, ns);
    assert a + [] == a && b + [] == b;
    assert At(ns, a + []) == At(ns, a) && At(ns, b + []) == At(ns, b);
    assert At(ns, a + t) == At(x, a + t) || At(ns, a + t) == At(x, b + t) || At(ns, a + t) == None;
  }

  /** An occupied destination stays as it is, and so does the source. */
  lemma OccupiedStays(entries: seq<Entry>, j: nat, x: Namespace, ns: Namespace)
    requires InPlaces(entries, x, ns) && j < |entries| && entries[j].task.dest in x
    ensures Straight(entries[j].task, x, ns) && entries[j].task.dest in ns
  {
    var b := entries[j].task.dest;
    assert InOnePlace(entries[j].task, x, ns);
    assert b + [] == b && At(ns, b + []) == At(x, b + []);
  }

  /** Where an entry's object can be taken up, it is the one that was there at first. */
  lemma FoundAtSource(entries: seq<Entry>, j: nat, x: Namespace, ns: Namespace)
    requires InPlaces(entries, x, ns) && j < |entries|
    requires entries[j].task.source in ns && entries[j].task.dest !in ns
    ensures entries[j].task.dest !in x && At(x, entries[j].task.source) == At(ns, entries[j].task.source)
  {
    var a, b := entries[j].task.source, entries[j].task.dest;
    if b in x { OccupiedStays(entries, j, x, ns); }
    assert InOnePlace(entries[j].task, x, ns) || TakenAway(entries[j].task, x, ns);
    assert a + [] == a && b + [] == b;
    assert At(ns, a + []) == At(ns, a) && At(ns, b + []) == At(ns, b);
  }

  lemma SameTreeThrough(z: Namespace, p: Path, y: Namespace, q: Path, x: Namespace, s: Path)
    ensures SameTree(z, p, y, q) && SameTree(y, q, x, s) ==> SameTree(z, p, x, s)
  {
  }

  /** A rename between the two places of an entry exchanges what is there. */
  lemma Exchanged(ns: Namespace, a: Path, b: Path, q: Path)
    requires Closed(ns) && CanMove(ns, a, b) && Separate(a, b)
    ensures SameTree(Moved(ns, a, b), a, ns, b) && SameTree(Moved(ns, a, b), b, ns, a)
    ensures !(a <= q) && !(b <= q) ==> At(Moved(ns, a, b), q) == At(ns, q)
  {
    forall t ensures At(Moved(ns, a, b), a + t) == At(ns, b + t) && At(Moved(ns, a, b), b + t) == At(ns, a + t) {
      MovedAt(ns, a, b, a + t);
      MovedAt(ns, a, b, b + t);
      BothPrefixes(a, b, a + t);
      assert (b + t)[|b|..] == t;
      FreeMeansEmptyBelow(ns, b, b + t);
    }
    MovedAt(ns, a, b, q);
  }

  lemma BothPrefixes(a: Path, b: Path, p: Path)
    requires Separate(a, b) && a <= p
    ensures !(b <= p)
  {
  }

  /** Entries apart from `j` do not notice what happens at its two places. */
  lemma OthersStay(entries: seq<Entry>, j: nat, k: nat, x: Namespace, ns: Namespace, ns': Namespace)
    requires Unrelated(entries) && j < |entries| && k < |entries| && j != k
    requires forall q :: !(entries[j].task.source <= q) && !(entries[j].task.dest <= q) ==> At(ns', q) == At(ns, q)
    requires InOnePlace(entries[k].task, x, ns) || TakenAway(entries[k].task, x, ns)
    ensures InOnePlace(entries[k].task, x, ns') || TakenAway(entries[k].task, x, ns')
  {
    var mine, other := entries[j].task, entries[k].task;
    assert UnrelatedPair(mine, other);
    forall t
      ensures At(ns', other.source + t) == At(ns, other.source + t)
      ensures At(ns', other.dest + t) == At(ns, other.dest + t)
    {
      BothPrefixes(other.source, mine.source, other.source + t);
      BothPrefixes(other.source, mine.dest, other.source + t);
      BothPrefixes(other.dest, mine.source, other.dest + t);
      BothPrefixes(other.dest, mine.dest, other.dest + t);
    }
  }

  /** So it is enough to look at that entry. */
  lemma OneChanges(entries: seq<Entry>, j: nat, x: Namespace, ns: Namespace, ns': Namespace)
    requires Unrelated(entries) && j < |entries| && InPlaces(entries, x, ns)
    requires forall q :: !(entries[j].task.source <= q) && !(entries[j].task.dest <= q) ==> At(ns', q) == At(ns, q)
    requires InOnePlace(entries[j].task, x, ns') || TakenAway(entries[j].task, x, ns')
    ensures InPlaces(entries, x, ns')
  {
    hide InOnePlace, TakenAway;
    forall k | 0 <= k < |entries| ensures InOnePlace(entries[k].task, x, ns') || TakenAway(entries[k].task, x, ns') {
      if k != j { OthersStay(entries, j, k, x, ns, ns'); }
    }
  }

  /** A rename between the two places of an entry whose destination was free at first. */
  lemma MovedInPlaces(entries: seq<Entry>, x: Namespace, ns: Namespace, j: nat, a: Path, b: Path)
    requires Unrelated(entries) && j < |entries| && Closed(ns) && CanMove(ns, a, b) && InPlaces(entries, x, ns)
    requires entries[j].task.dest !in x
    requires
      || (a == entries[j].task.source && b == entries[j].task.dest)
      || (a == entries[j].task.dest && b == entries[j].task.source)
    ensures InPlaces(entries, x, Moved(ns, a, b))
  {
    var task := entries[j].task;
    var m := Moved(ns, a, b);
    assert Separate(task.source, task.dest);
    Exchanged(ns, a, b, a);
    forall q | !(task.source <= q) && !(task.dest <= q) ensures At(m, q) == At(ns, q) {
      Exchanged(ns, a, b, q);
    }
    assert InOnePlace(task, x, ns) || TakenAway(task, x, ns);
    RenamedInPlace(task, x, ns, m, a, b);
    OneChanges(entries, j, x, ns, m);
  }

  lemma RenamedInPlace(task: Task, x: Namespace, ns: Namespace, m: Namespace, a: Path, b: Path)
    requires InOnePlace(task, x, ns) || TakenAway(task, x, ns)
    requires task.dest !in x && a in ns
    requires SameTree(m, a, ns, b) && SameTree(m, b, ns, a)
    requires (a == task.source && b == task.dest) || (a == task.dest && b == task.source)
    ensures InOnePlace(task, x, m)
  {
    assert a + [] == a && task.dest + [] == task.dest;
    assert At(ns, a + []) == At(ns, a) && At(x, task.dest + []) == None;
    assert InOnePlace(task, x, ns);
    hide SameTree;
    SameTreeThrough(m, a, ns, b, x, task.source);
    SameTreeThrough(m, a, ns, b, x, task.dest);
    SameTreeThrough(m, b, ns, a, x, task.source);
    SameTreeThrough(m, b, ns, a, x, task.dest);
  }

  /** The removal of what an entry has at its destination, which was free at first. */
  lemma RemovedInPlaces(entries: seq<Entry>, x: Namespace, ns: Namespace, j: nat)
    requires Unrelated(entries) && j < |entries| && Closed(ns) && InPlaces(entries, x, ns)
    requires entries[j].task.dest !in x && MarkedAt(ns, entries[j].task.dest)
    requires NoChildren(ns, entries[j].task.dest)
    ensures InPlaces(entries, x, ns - {entries[j].task.dest})
  {
    var task := entries[j].task;
    assert InOnePlace(task, x, ns) || TakenAway(task, x, ns);
    assert task.dest + [] == task.dest && task.source + [] == task.source;
    assert At(ns, task.dest + []) == At(ns, task.dest) && At(x, task.dest + []) == None;
    assert Crossed(task, x, ns);
    assert At(ns, task.dest + []) == At(x, task.source + []) && At(ns, task.source + []) == None;
    forall t ensures At(ns - {task.dest}, task.source + t) == None == At(ns - {task.dest}, task.dest + t) {
      FreeMeansEmptyBelow(ns, task.source, task.source + t);
      assert t != [] ==> task.dest < task.dest + t;
    }
    OneChanges(entries, j, x, ns, ns - {task.dest});
  }

  // Whole runs.

  /** A deed of a move is the rename of an entry, there or back, or the removal of an object that
      stands at an entry's destination and carries a token. */
  lemma MoveDeed(d: Deed, made: set<Identity>) returns (j: nat)
    requires Fair(d, made) && !d.record.head.operation.Copy? && !d.record.tempCreated
    ensures j < |d.record.entries| && !Idle(d.record.entries[j])
    ensures
      var task := d.record.entries[j].task;
      || (d.act == Remove(task.dest) && MarkedAt(d.before, task.dest) && NoChildren(d.before, task.dest) &&
          d.after == d.before - {task.dest})
      || (d.act.Rename? && CanMove(d.before, d.act.from, d.act.to) &&
          d.after == Moved(d.before, d.act.from, d.act.to) &&
          ((d.act.from == task.source && d.act.to == task.dest) ||
           (d.act.from == task.dest && d.act.to == task.source)))
  {
    if d.act.Remove? {
      j :| 0 <= j < |d.record.entries| && RemovalOf(d.record.entries[j], d.act.path, d.before[d.act.path].id);
    } else {
      j :| 0 <= j < |d.record.entries| &&
           RenameOf(d.record.head.operation, d.record.entries[j], d.act.from, d.act.to, d.before[d.act.from].id);
    }
  }

  /** Where an undisturbed move leaves the objects of `x`. */
  ghost predicate Preserved(entries: seq<Entry>, x: Namespace, ns: Namespace) {
    && Closed(ns) && Rearranged(x, ns) && (Unrelated(entries) ==> InPlaces(entries, x, ns))
  }

  /** An entry whose destination was taken at first has not been taken up. */
  ghost predicate Spared(entries: seq<Entry>, x: Namespace, r: Record) {
    |entries| == |r.entries| && forall j :: 0 <= j < |r.entries| ==> entries[j].task.dest in x ==> Idle(r.entries[j])
  }

  lemma DeedPreserves(entries: seq<Entry>, x: Namespace, d: Deed, made: set<Identity>)
    requires Preserved(entries, x, d.before) && Fair(d, made) && !d.record.head.operation.Copy?
    requires !d.record.tempCreated && SameTasks(d.record.entries, entries)
    requires Unrelated(entries) ==> Spared(entries, x, d.record)
    ensures Preserved(entries, x, d.after)
  {
    var j := MoveDeed(d, made);
    assert SameTask(d.record.entries[j], entries[j]);
    hide Fair, SameTasks, InPlaces, Rearranged, Unrelated, Moved, CanMove, NoChildren, Closed;
    if d.act.Rename? {
      MovedKeepsClosed(d.before, d.act.from, d.act.to);
      MovedRearranges(d.before, d.act.from, d.act.to);
      if Unrelated(entries) { MovedInPlaces(entries, x, d.before, j, d.act.from, d.act.to); }
    } else {
      LeafGone(d.before, d.act.path);
      RemovedRearranges(d.before, d.act.path);
      if Unrelated(entries) { RemovedInPlaces(entries, x, d.before, j); }
    }
    RearrangedThrough(x, d.before, d.after);
  }

  lemma LeafGone(ns: Namespace, p: Path)
    requires Closed(ns) && p in ns && NoChildren(ns, p)
    ensures Closed(ns - {p})
  {
  }

  lemma DeedOf(w: World, r: Record, k: nat)
    requires Sound(w, r) && w.quiet && k < |w.deeds|
    ensures Fair(w.deeds[k], w.made) && w.deeds[k].before == NsAt(w.start.ns, w.deeds, k)
    ensures w.deeds[k].record.head.operation == r.head.operation && SameTasks(w.deeds[k].record.entries, r.entries)
    ensures Due(w.quiet, w.start, w.deeds, w.deeds[k].record, k)
  {
    assert SameJob(w.saved, w.deeds[k].record);
  }

  /** A destination that was taken at first is never found free, and its entry stays idle. */
  lemma StaysSpared(w: World, entries: seq<Entry>, x: Namespace, r: Record, n: nat)
    requires w.quiet && Due(w.quiet, w.start, w.deeds, r, n) && !r.head.operation.Copy?
    requires SameTasks(r.entries, entries) && Spared(entries, x, w.start.saved)
    requires forall m :: 0 <= m <= n && m <= |w.deeds| ==> InPlaces(entries, x, NsAt(w.start.ns, w.deeds, m))
    ensures Spared(entries, x, r)
  {
    hide InPlaces, NsAt;
    forall j | 0 <= j < |r.entries| && entries[j].task.dest in x ensures Idle(r.entries[j]) {
      assert SameTask(r.entries[j], entries[j]);
      assert DueEntry(w.start, w.deeds, r.entries[j], w.start.saved.entries[j], n);
      if FoundFree(w.start, w.deeds, r.entries[j].task.dest, n) {
        var m :| 0 <= m <= n && m <= |w.deeds| && r.entries[j].task.dest !in NsAt(w.start.ns, w.deeds, m);
        OccupiedStays(entries, j, x, NsAt(w.start.ns, w.deeds, m));
      }
    }
  }

  /** The run begins with the objects of `x` preserved. */
  ghost predicate BeginsWith(entries: seq<Entry>, x: Namespace, start: Instant) {
    Preserved(entries, x, start.ns) && (Unrelated(entries) ==> Spared(entries, x, start.saved))
  }

  lemma {:induction false} DeedsPreserve(w: World, r: Record, x: Namespace, n: nat)
    requires Sound(w, r) && w.quiet && !r.head.operation.Copy? && n <= |w.deeds|
    requires BeginsWith(r.entries, x, w.start)
    ensures Preserved(r.entries, x, NsAt(w.start.ns, w.deeds, n))
  {
    hide Sound, SameTasks, Fair, Closed, Rearranged, InPlaces, Unrelated;
    if n != 0 {
      forall m: nat | m < n ensures Preserved(r.entries, x, NsAt(w.start.ns, w.deeds, m)) {
        DeedsPreserve(w, r, x, m);
      }
      var d := w.deeds[n - 1];
      DeedOf(w, r, n - 1);
      if Unrelated(r.entries) { StaysSpared(w, r.entries, x, d.record, n - 1); }
      hide Preserved, Due;
      DeedPreserves(r.entries, x, d, w.made);
    }
  }

  /** Nobody else touching the namespace, every moment of a move, of its rollback and of its recovery
      has every object that carries no token under exactly one name, and nothing that was not there.
      When no path of the plan lies above another, every entry is wholly at its source or wholly at
      its destination, unless it carried a token, and all the rest is where it was. What is so at
      first may be so since `x`. */
  lemma MoveKeepsEverything(w: World, r: Record, x: Namespace, k: nat)
    requires Sound(w, r) && w.quiet && !r.head.operation.Copy? && k < |w.history|
    requires BeginsWith(r.entries, x, w.start)
    ensures BeginsWith(r.entries, x, w.history[k]) && Preserved(r.entries, x, w.ns)
  {
    hide Preserved;
    var age := w.history[k].age;
    forall m: nat | m <= |w.deeds| ensures Preserved(r.entries, x, NsAt(w.start.ns, w.deeds, m)) {
      DeedsPreserve(w, r, x, m);
    }
    if Unrelated(r.entries) { MomentSpared(w, r, x, k); }
  }

  lemma MomentSpared(w: World, r: Record, x: Namespace, k: nat)
    requires Sound(w, r) && w.quiet && !r.head.operation.Copy? && k < |w.history|
    requires BeginsWith(r.entries, x, w.start) && Unrelated(r.entries)
    requires forall m: nat :: m <= |w.deeds| ==> Preserved(r.entries, x, NsAt(w.start.ns, w.deeds, m))
    ensures Spared(r.entries, x, w.history[k].saved)
  {
    hide InPlaces, Unrelated, Rearranged, Closed, NsAt;
    assert SameJob(w.saved, w.history[k].saved);
    StaysSpared(w, r.entries, x, w.history[k].saved, w.history[k].age);
  }

  lemma StartPreserved(entries: seq<Entry>, i: Instant)
    requires Closed(i.ns) && |entries| == |i.saved.entries|
    requires forall j :: 0 <= j < |i.saved.entries| ==> Idle(i.saved.entries[j])
    ensures BeginsWith(entries, i.ns, i)
  {
    Unmoved(i.ns);
    SameInPlaces(entries, i.ns);
    hide InPlaces, Rearranged;
  }

  lemma SameInPlaces(entries: seq<Entry>, x: Namespace)
    ensures InPlaces(entries, x, x)
  {
    forall j | 0 <= j < |entries| ensures InOnePlace(entries[j].task, x, x) {
      assert SameTree(x, entries[j].task.source, x, entries[j].task.source);
      assert SameTree(x, entries[j].task.dest, x, entries[j].task.dest);
    }
  }

  lemma PreservedBySame(a: seq<Entry>, b: seq<Entry>, x: Namespace, ns: Namespace)
    requires SameTasks(b, a) && Preserved(a, x, ns)
    ensures Preserved(b, x, ns)
  {
    assert forall j :: 0 <= j < |a| ==> SameTask(b[j], a[j]);
    assert Unrelated(b) ==> Unrelated(a);
    forall p | Beside(b, p) ensures Beside(a, p) { }
    hide InOnePlace, TakenAway, Rearranged;
  }

  /** Whatever a move does, no object comes into the namespace. */
  lemma NothingNew(entries: seq<Entry>, x: Namespace, ns: Namespace, q: Path) returns (p: Path)
    requires Preserved(entries, x, ns) && q in ns
    ensures p in x && x[p] == ns[q]
  {
    p := RearrangedFrom(x, ns, q);
  }

  // After a failure in the window of a rename.

  /** Where a rename between `a` and `b` takes what is found at `q` afterwards from. */
  function Swap(a: Path, b: Path, q: Path): Path {
    if a <= q then b + q[|a|..] else if b <= q then a + q[|b|..] else q
  }

  lemma MovedBySwap(ns: Namespace, a: Path, b: Path, q: Path)
    requires Closed(ns) && CanMove(ns, a, b) && Separate(a, b)
    ensures At(Moved(ns, a, b), q) == At(ns, Swap(a, b, q))
  {
    Exchanged(ns, a, b, q);
    if a <= q {
      assert a + q[|a|..] == q;
    } else if b <= q {
      assert b + q[|b|..] == q;
    }
    hide Moved, CanMove;
  }

  lemma SwapsCommute(mine: Task, other: Task, q: Path)
    requires UnrelatedPair(mine, other)
    ensures Swap(mine.source, mine.dest, Swap(other.dest, other.source, q))
         == Swap(other.dest, other.source, Swap(mine.source, mine.dest, q))
  {
    SwapBeside(mine.source, mine.dest, other.dest, other.source, q);
    SwapBeside(other.dest, other.source, mine.source, mine.dest, q);
  }

  /** A swap does not notice what another one has brought. */
  lemma SwapBeside(a: Path, b: Path, c: Path, d: Path, q: Path)
    requires Separate(a, c) && Separate(a, d) && Separate(b, c) && Separate(b, d)
    ensures c <= q || d <= q ==> Swap(a, b, q) == q && Swap(a, b, Swap(c, d, q)) == Swap(c, d, q)
  {
    if c <= q {
      BothPrefixes(c, a, q);
      BothPrefixes(c, b, q);
      BothPrefixes(d, a, d + q[|c|..]);
      BothPrefixes(d, b, d + q[|c|..]);
    } else if d <= q {
      BothPrefixes(d, a, q);
      BothPrefixes(d, b, q);
      BothPrefixes(c, a, c + q[|d|..]);
      BothPrefixes(c, b, c + q[|d|..]);
    }
  }

  lemma SameAt(x: Namespace, y: Namespace)
    requires forall q :: At(x, q) == At(y, q)
    ensures x == y
  {
    forall q ensures AgreeAt(x, y, q) { assert At(x, q) == At(y, q); }
    SameMap(x, y);
  }

  /** A path beside both ends of a rename keeps its object, and so does the directory it lies in. */
  lemma BesideStays(ns: Namespace, a: Path, b: Path, p: Path)
    requires Closed(ns) && CanMove(ns, a, b) && Separate(a, b) && Separate(a, p) && Separate(b, p)
    ensures At(Moved(ns, a, b), p) == At(ns, p)
    ensures p != [] ==> At(Moved(ns, a, b), Parent(p)) == At(ns, Parent(p))
  {
    Exchanged(ns, a, b, p);
    if p != [] {
      assert Parent(p) <= p;
      assert !(a <= Parent(p)) && !(b <= Parent(p));
      Exchanged(ns, a, b, Parent(p));
    }
  }

  /** Two renames of unrelated entries may be made in either order. */
  lemma RenamesCommute(ns: Namespace, mine: Task, other: Task)
    requires Closed(ns) && UnrelatedPair(mine, other)
    requires Separate(mine.source, mine.dest) && Separate(other.source, other.dest)
    requires CanMove(ns, mine.source, mine.dest) && CanMove(ns, other.dest, other.source)
    ensures
      var there, back := Moved(ns, mine.source, mine.dest), Moved(ns, other.dest, other.source);
      && CanMove(there, other.dest, other.source) && CanMove(back, mine.source, mine.dest)
      && Moved(there, other.dest, other.source) == Moved(back, mine.source, mine.dest)
  {
    var there, back := Moved(ns, mine.source, mine.dest), Moved(ns, other.dest, other.source);
    BesideStays(ns, mine.source, mine.dest, other.source);
    BesideStays(ns, mine.source, mine.dest, other.dest);
    BesideStays(ns, other.dest, other.source, mine.source);
    BesideStays(ns, other.dest, other.source, mine.dest);
    assert At(there, other.source) == None && At(back, mine.dest) == None;
    MovedKeepsClosed(ns, mine.source, mine.dest);
    MovedKeepsClosed(ns, other.dest, other.source);
    hide Moved, Closed, Swap;
    forall q ensures At(Moved(there, other.dest, other.source), q) == At(Moved(back, mine.source, mine.dest), q) {
      MovedBySwap(there, other.dest, other.source, q);
      MovedBySwap(ns, mine.source, mine.dest, Swap(other.dest, other.source, q));
      MovedBySwap(back, mine.source, mine.dest, q);
      MovedBySwap(ns, other.dest, other.source, Swap(mine.source, mine.dest, q));
      SwapsCommute(mine, other, q);
    }
    SameAt(Moved(there, other.dest, other.source), Moved(back, mine.source, mine.dest));
  }

  /** The entry of a move as it rolls back. */
  predicate PlainMove(e: Entry) { !e.created && !e.objectId.HasToken() && e.replacement.NotReplacing? }

  /** Undoing the entry renames its object home. */
  predicate GoesHome(ns: Namespace, e: Entry) {
    e.applied && !e.cleanup.RenameSyncPending? && e.task.source !in ns && e.task.dest in ns
  }

  /** What undoing the entry of a move comes to. */
  lemma UndoneHome(ns: Namespace, e: Entry)
    requires PlainMove(e) && UndoEntry(ns, e).Some?
    ensures GoesHome(ns, e) ==>
      CanMove(ns, e.task.dest, e.task.source) && UndoEntry(ns, e).value == Moved(ns, e.task.dest, e.task.source)
    ensures !GoesHome(ns, e) ==> UndoEntry(ns, e).value == ns
  {
    hide Moved, CanMove;
  }

  /** It depends on source and destination only. */
  lemma UndoneAlike(ns: Namespace, z: Namespace, e: Entry)
    requires PlainMove(e) && UndoEntry(ns, e).Some?
    requires At(z, e.task.source) == At(ns, e.task.source) && At(z, e.task.dest) == At(ns, e.task.dest)
    requires GoesHome(ns, e) ==> CanMove(z, e.task.dest, e.task.source)
    ensures UndoEntry(z, e) == Some(if GoesHome(ns, e) then Moved(z, e.task.dest, e.task.source) else z)
  {
    hide Moved, CanMove;
  }

  /** Undoing an entry does not notice whether an unrelated object has been moved. */
  lemma UndoBeside(ns: Namespace, mine: Task, e: Entry)
    requires Closed(ns) && UnrelatedPair(mine, e.task) && PlainMove(e)
    requires Separate(mine.source, mine.dest) && Separate(e.task.source, e.task.dest)
    requires CanMove(ns, mine.source, mine.dest) && UndoEntry(ns, e).Some?
    ensures
      var y := UndoEntry(ns, e).value;
      && Closed(y) && CanMove(y, mine.source, mine.dest)
      && UndoEntry(Moved(ns, mine.source, mine.dest), e) == Some(Moved(y, mine.source, mine.dest))
  {
    hide Moved, Closed, CanMove, UndoEntry, At, Separate, PlainMove;
    BesideStays(ns, mine.source, mine.dest, e.task.source);
    BesideStays(ns, mine.source, mine.dest, e.task.dest);
    UndoneHome(ns, e);
    if GoesHome(ns, e) {
      RenamesCommute(ns, mine, e.task);
      MovedKeepsClosed(ns, e.task.dest, e.task.source);
    }
    UndoneAlike(ns, Moved(ns, mine.source, mine.dest), e);
  }

  lemma PairOf(entries: seq<Entry>, i: nat, j: nat)
    requires Unrelated(entries) && i < |entries| && j < |entries| && i != j
    ensures UnrelatedPair(entries[i].task, entries[j].task)
    ensures Separate(entries[i].task.source, entries[i].task.dest)
    ensures Separate(entries[j].task.source, entries[j].task.dest)
  {
  }

  lemma {:induction false} UndoAllBeside(ns: Namespace, entries: seq<Entry>, i: nat, k: nat, x: Namespace)
    requires k <= i < |entries| && Unrelated(entries) && Closed(ns)
    requires forall j :: 0 <= j < |entries| ==> PlainMove(entries[j])
    requires CanMove(ns, entries[i].task.source, entries[i].task.dest) && UndoPrefix(Some(ns), entries, k) == Some(x)
    ensures
      var task := entries[i].task;
      && CanMove(x, task.source, task.dest)
      && UndoPrefix(Some(Moved(ns, task.source, task.dest)), entries, k) == Some(Moved(x, task.source, task.dest))
    decreases k
  {
    hide Moved, CanMove, Closed, UndoEntry, Unrelated, UnrelatedPair, Separate, PlainMove;
    if k != 0 {
      var below := UndoEntry(ns, entries[k - 1]);
      if below.None? {
        NoneStaysNone(entries, k - 1);
      } else {
        PairOf(entries, i, k - 1);
        UndoBeside(ns, entries[i].task, entries[k - 1]);
        UndoAllBeside(below.value, entries, i, k - 1, x);
      }
    }
  }

  /** So in the window of a rename, with no path of the plan above another, rolling back takes everything
      back except the object in the window, which stays at its destination. */
  lemma WindowLeaves(x: Namespace, ns: Namespace, r: Record)
    requires Closed(ns) && Windowed(x, ns, r) && EntryOnTop(r, r.head.entryIndex) && AllRoll(r) && Unrelated(r.entries)
    ensures
      var task := r.entries[r.head.entryIndex].task;
      CanMove(x, task.source, task.dest) && Recover(ns, r) == Some(Moved(x, task.source, task.dest))
  {
    hide Moved, CanMove, Closed, UndoEntry, Unrelated, Separate, PlainMove, UndoPrefix, Recover, RollsExactly;
    var i := r.head.entryIndex;
    var task := r.entries[i].task;
    AllPlainMoves(r);
    SourceFromDest(r.entries, i);
    var y := WindowLayers(x, ns, r);
    WindowBack(ns, task);
    UndoAllBeside(y, r.entries, i, i, x);
  }

  lemma AllPlainMoves(r: Record)
    requires AllRoll(r) && !r.head.operation.Copy?
    ensures forall j :: 0 <= j < |r.entries| ==> PlainMove(r.entries[j])
  {
    forall j | 0 <= j < |r.entries| ensures PlainMove(r.entries[j]) {
      assert RollsExactly(r.head.operation, r.entries[j]);
    }
  }

  lemma SourceFromDest(entries: seq<Entry>, i: nat)
    requires Unrelated(entries) && i < |entries|
    ensures Separate(entries[i].task.source, entries[i].task.dest)
  {
  }

  /** The entries below the window, undone with the object back or where it is. */
  lemma WindowLayers(x: Namespace, ns: Namespace, r: Record) returns (y: Namespace)
    requires Windowed(x, ns, r) && EntryOnTop(r, r.head.entryIndex) && PlainMove(r.entries[r.head.entryIndex])
    ensures
      var i := r.head.entryIndex;
      var task := r.entries[i].task;
      && CanMove(ns, task.dest, task.source) && y == Moved(ns, task.dest, task.source)
      && UndoPrefix(Some(y), r.entries, i) == Some(x) && Recover(ns, r) == UndoPrefix(Some(ns), r.entries, i)
  {
    hide Moved, CanMove, UndoPrefix, Recover;
    var i := r.head.entryIndex;
    var e, r0 := r.entries[i], Unwindowed(r);
    RecoverByTop(ns, r0, i);
    RecoverByTop(ns, r, i);
    EntryDefined(ns, r0, i);
    UndoneHome(ns, r0.entries[i]);
    y := Moved(ns, e.task.dest, e.task.source);
    assert r0.entries[..i] == r.entries[..i];
    PrefixOnly(Some(y), r0.entries, r.entries, i);
    assert UndoEntry(ns, e) == Some(ns) by { WindowDefined(ns, r0.entries[i], e); }
  }

  lemma WindowDefined(ns: Namespace, e0: Entry, e: Entry)
    requires PlainMove(e0) && UndoEntry(ns, e0).Some? && GoesHome(ns, e0) && e == e0.(cleanup := RenameSyncPending)
    ensures UndoEntry(ns, e) == Some(ns)
  {
    hide Moved, CanMove;
  }

  lemma WindowBack(ns: Namespace, task: Task)
    requires Closed(ns) && CanMove(ns, task.dest, task.source) && Separate(task.source, task.dest)
    ensures
      var y := Moved(ns, task.dest, task.source);
      Closed(y) && CanMove(y, task.source, task.dest) && Moved(y, task.source, task.dest) == ns
  {
    MoveThereAndBack(ns, task.dest, task.source);
    MovedKeepsClosed(ns, task.dest, task.source);
  }
}
