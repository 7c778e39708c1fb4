/** The file system behind a file operation: a namespace, the last durable record, and calls that
    may fail, may take effect and still report a failure, and may be interleaved with changes made
    by others. */
module FileBackend {
  import opened Common
  import opened Namespaces
  import opened UndoSpec

  datatype Status = Ok | PathExists | IdentityMismatch | OutOfSpace | Unplugged | Failed

  /** The backup path the service proposes for an object at a path, if it has one. */
  type Proposal = (Path, Identity) -> Option<Path>

  /** A change of the namespace. */
  datatype Act =
    | Remove(path: Path)
    | Rename(from: Path, to: Path)
    | Create(path: Path)
    | Publish(from: Path, to: Path)
    | Link(from: Path, to: Path)
    | Write(path: Path)

  /** A change this operation made: the namespaces before and after it, and the record that was
      durable at that moment. */
  datatype Deed = Deed(act: Act, before: Namespace, after: Namespace, record: Record)

  /** What the act does. No act gives a name that is taken. */
  ghost predicate Effect(d: Deed) {
    match d.act
    case Remove(p) => p in d.before && NoChildren(d.before, p) && d.after == d.before - {p}
    case Rename(a, b) => CanMove(d.before, a, b) && d.after == Moved(d.before, a, b)
    case Create(p) => CanCreate(d.before, p) && p in d.after && d.after == d.before[p := d.after[p]]
    case Publish(a, b) =>
      && a in d.before && CanCreate(d.before, b)
      && (d.after == d.before[b := d.before[a]] || d.after == d.before[b := d.before[a]] - {a})
    case Link(a, b) => a in d.before && CanCreate(d.before, b) && d.after == d.before[b := d.before[a]]
    case Write(p) =>
      p in d.before && p in d.after && d.after == d.before[p := d.before[p].(content := d.after[p].content)]
  }

  predicate RemovalOf(e: Entry, p: Path, id: Identity) {
    e.created && e.task.dest == p && e.objectId == id
  }

  /** A copy renames only to and from its backup paths; the other operations only what they were
      told to move, there and back. */
  predicate RenameOf(operation: OperationKind, e: Entry, a: Path, b: Path, id: Identity) {
    if operation.Copy? then
      && !e.replacement.NotReplacing? && e.backupId == id
      && ((e.task.dest == a && e.backup == b) || (e.backup == a && e.task.dest == b))
    else
      && e.applied && e.objectId == id
      && ((e.task.source == a && e.task.dest == b) || (e.task.dest == a && e.task.source == b))
  }

  predicate PublicationOf(r: Record, e: Entry, a: Path, b: Path) {
    r.tempCreated && r.tempPath == a && e.created && e.objectId == r.tempId && e.task.dest == b
  }

  /** The durable record announces the deed: a removal names the object's full identity, a rename
      is a backup or its reversal, or the operation's own move or its reversal, a publication goes
      from the temporary path to the destination of an entry. */
  ghost predicate Announced(d: Deed)
    requires Effect(d)
  {
    var r := d.record;
    match d.act
    case Remove(p) =>
      || (r.tempCreated && r.tempPath == p && r.tempId == d.before[p].id)
      || exists j :: 0 <= j < |r.entries| && RemovalOf(r.entries[j], p, d.before[p].id)
    case Rename(a, b) =>
      exists j :: 0 <= j < |r.entries| && RenameOf(r.head.operation, r.entries[j], a, b, d.before[a].id)
    case Publish(a, b) => exists j :: 0 <= j < |r.entries| && PublicationOf(r, r.entries[j], a, b)
    case _ => true
  }

  /** The deed was announced, and what a copy removed or wrote to was made by that copy. The other
      operations only rename; at worst they remove an object that carries a token. */
  ghost predicate Fair(d: Deed, made: set<Identity>) {
    && Effect(d) && Announced(d)
    && match d.act
       case Remove(p) =>
         if d.record.head.operation.Copy? then d.before[p].id in made else d.before[p].id.HasToken()
       case Rename(_, _) => true
       case Write(p) => d.record.head.operation.Copy? && d.before[p].id in made
       case _ => d.record.head.operation.Copy?
  }

  ghost predicate Harmless(deeds: seq<Deed>, made: set<Identity>) {
    forall k :: 0 <= k < |deeds| ==> Fair(deeds[k], made)
  }

  lemma DeedKeepsHarmless(deeds: seq<Deed>, made: set<Identity>, more: set<Identity>, d: Deed)
    requires Harmless(deeds, made) && made <= more && Fair(d, more)
    ensures Harmless(deeds + [d], more)
  {
  }

  // Which records a run may store.

  /** Everything the record marks as made by a copy carries one of its tokens, and only the replacing
      policy displaces; the other operations make nothing and displace nothing. */
  ghost predicate Own(r: Record, issued: set<Token>) {
    && (r.tempCreated ==> r.head.operation.Copy? && r.tempId.HasToken() && r.tempId.token in issued)
    && (forall j :: 0 <= j < |r.entries| ==> OwnEntry(r.head.operation, r.head.policy, r.entries[j], issued))
  }

  predicate OwnEntry(operation: OperationKind, policy: Policy, e: Entry, issued: set<Token>) {
    && (e.created ==> e.objectId.HasToken())
    && (operation.Copy? ==> !e.applied && (e.objectId.HasToken() ==> e.objectId.token in issued))
    && ((operation.Copy? && policy.ConflictReplace?) || e.replacement.NotReplacing?)
  }

  /** The disk, the tokens and objects of this operation, and what happened so far; `past` is the part
      of the history that was remembered last. */
  datatype World = World(
    ns: Namespace, saved: Record, issued: set<Token>, made: set<Identity>,
    quiet: bool, start: Instant, past: seq<Instant>, deeds: seq<Deed>, history: seq<Instant>)

  /** Tokens cannot be forged: an object carrying one of this operation's tokens is one of the
      objects this operation made; and all that it made carries one. */
  predicate Unforged(ns: Namespace, issued: set<Token>, made: set<Identity>) {
    && (forall p :: p in ns && ns[p].id.token in issued ==> ns[p].id in made)
    && (forall id :: id in made ==> id.token in issued)
  }

  /** What is so at every moment: the tree is a tree, no token is forged, and the durable record is
      one that can be restored. */
  ghost predicate Sane(i: Instant) {
    && Closed(i.ns) && Restorable(i.saved) && Own(i.saved, i.issued)
    && Unforged(i.ns, i.issued, i.made) && 0 !in i.issued
  }

  function Now(w: World): Instant { Instant(w.ns, w.saved, w.issued, w.made, |w.deeds|) }

  ghost predicate Lawful(w: World) {
    && Sane(Now(w)) && Sane(w.start) && |w.history| > 0
    && (forall k :: 0 <= k < |w.history| ==> Sane(w.history[k]) && SameJob(w.saved, w.history[k].saved))
    && (forall k :: 0 <= k < |w.deeds| ==> SameJob(w.saved, w.deeds[k].record) && Closed(w.deeds[k].before))
    && Traced(w) && Timely(w) && w.past <= w.history
  }

  /** The namespace after the first `n` deeds of an undisturbed run. */
  function NsAt(start: Namespace, deeds: seq<Deed>, n: nat): Namespace
    requires n <= |deeds|
  {
    if n == 0 then start else deeds[n - 1].after
  }

  /** Where nobody else changes the namespace, the deeds account for every moment. */
  ghost predicate Traced(w: World) {
    w.quiet ==>
      && (forall k :: 0 <= k < |w.deeds| ==> w.deeds[k].before == NsAt(w.start.ns, w.deeds, k))
      && w.ns == NsAt(w.start.ns, w.deeds, |w.deeds|)
      && (forall k :: 0 <= k < |w.history| ==>
            w.history[k].age <= |w.deeds| && w.history[k].ns == NsAt(w.start.ns, w.deeds, w.history[k].age))
  }

  /** A move has not taken the entry up. */
  predicate Idle(e: Entry) { !e.created && !e.applied && !e.objectId.HasToken() }

  /** The path was free before one of the first `n` deeds, or after them. */
  ghost predicate FoundFree(start: Instant, deeds: seq<Deed>, p: Path, n: nat) {
    exists m :: 0 <= m <= n && m <= |deeds| && p !in NsAt(start.ns, deeds, m)
  }

  ghost predicate DueEntry(start: Instant, deeds: seq<Deed>, e: Entry, before: Entry, n: nat) {
    Idle(e) || !Idle(before) || FoundFree(start, deeds, e.task.dest, n)
  }

  /** Undisturbed, a move takes an entry up only when it has found the destination free, in this run
      or before it. */
  ghost predicate Due(quiet: bool, start: Instant, deeds: seq<Deed>, r: Record, n: nat) {
    quiet && !r.head.operation.Copy? ==>
      && !r.tempCreated && |r.entries| == |start.saved.entries|
      && forall j :: 0 <= j < |r.entries| ==> DueEntry(start, deeds, r.entries[j], start.saved.entries[j], n)
  }

  /** The records of a run are due, each at its time. */
  ghost predicate Timely(w: World) {
    && Due(w.quiet, w.start, w.deeds, w.saved, |w.deeds|)
    && (forall k :: 0 <= k < |w.deeds| ==> Due(w.quiet, w.start, w.deeds, w.deeds[k].record, k))
    && (forall k :: 0 <= k < |w.history| ==> Due(w.quiet, w.start, w.deeds, w.history[k].saved, w.history[k].age))
  }

  lemma DueLater(quiet: bool, start: Instant, deeds: seq<Deed>, d: Deed, r: Record, n: nat, m: nat)
    requires Due(quiet, start, deeds, r, n) && n <= m
    ensures Due(quiet, start, deeds + [d], r, m)
  {
    if quiet && !r.head.operation.Copy? {
      forall j | 0 <= j < |r.entries|
        ensures DueEntry(start, deeds + [d], r.entries[j], start.saved.entries[j], m)
      {
        assert DueEntry(start, deeds, r.entries[j], start.saved.entries[j], n);
        if FoundFree(start, deeds, r.entries[j].task.dest, n) {
          var k :| 0 <= k <= n && k <= |deeds| && r.entries[j].task.dest !in NsAt(start.ns, deeds, k);
          NsAtGrows(start.ns, deeds, d, k);
        }
      }
    }
  }

  function Stored(w: World, r: Record): World {
    w.(saved := r, history := w.history + [Now(w.(saved := r))])
  }

  /** The world after a change of the namespace. */
  function Did(w: World, act: Act, ns: Namespace): World {
    var done := w.(ns := ns, deeds := w.deeds + [Deed(act, w.ns, ns, w.saved)]);
    done.(history := w.history + [Now(done)])
  }

  lemma StoredLawful(w: World, r: Record)
    requires Lawful(w) && Restorable(r) && Own(r, w.issued) && SameJob(w.saved, r)
    requires Due(w.quiet, w.start, w.deeds, r, |w.deeds|)
    ensures Lawful(Stored(w, r))
  {
    hide Due, Closed, Unforged, Own, Restorable;
  }

  lemma DidLawful(w: World, act: Act, ns: Namespace)
    requires Lawful(w) && Closed(ns) && Unforged(ns, w.issued, w.made)
    ensures Lawful(Did(w, act, ns))
  {
    hide Closed, Unforged, Restorable, Own, Traced, SameJob, SameTasks, Timely;
    DidTraced(w, act, ns);
    DidTimely(w, act, ns);
    SameJobAlways(w.saved);
    var v := Did(w, act, ns);
    forall k | 0 <= k < |v.history| ensures Sane(v.history[k]) && SameJob(v.saved, v.history[k].saved) {
      if k < |w.history| { assert v.history[k] == w.history[k]; }
    }
  }

  lemma SameJobAlways(r: Record)
    ensures SameJob(r, r)
  {
  }

  lemma DidTraced(w: World, act: Act, ns: Namespace)
    requires Traced(w)
    ensures Traced(Did(w, act, ns))
  {
    hide NsAt;
    var v := Did(w, act, ns);
    forall n: nat | n <= |w.deeds| ensures NsAt(v.start.ns, v.deeds, n) == NsAt(w.start.ns, w.deeds, n) {
      NsAtGrows(w.start.ns, w.deeds, Deed(act, w.ns, ns, w.saved), n);
    }
    NsAtGrows(w.start.ns, w.deeds, Deed(act, w.ns, ns, w.saved), |w.deeds|);
  }

  lemma NsAtGrows(start: Namespace, deeds: seq<Deed>, d: Deed, n: nat)
    requires n <= |deeds|
    ensures NsAt(start, deeds + [d], n) == NsAt(start, deeds, n) && NsAt(start, deeds + [d], |deeds| + 1) == d.after
  {
  }

  lemma DidTimely(w: World, act: Act, ns: Namespace)
    requires Timely(w)
    ensures Timely(Did(w, act, ns))
  {
    hide Due;
    var v := Did(w, act, ns);
    var d := Deed(act, w.ns, ns, w.saved);
    DueLater(w.quiet, w.start, w.deeds, d, w.saved, |w.deeds|, |w.deeds|);
    DueLater(w.quiet, w.start, w.deeds, d, w.saved, |w.deeds|, |w.deeds| + 1);
    forall k | 0 <= k < |v.deeds| ensures Due(v.quiet, v.start, v.deeds, v.deeds[k].record, k) {
      if k < |w.deeds| { DueLater(w.quiet, w.start, w.deeds, d, w.deeds[k].record, k, k); }
    }
    forall k | 0 <= k < |v.history| ensures Due(v.quiet, v.start, v.deeds, v.history[k].saved, v.history[k].age) {
      if k < |w.history| {
        DueLater(w.quiet, w.start, w.deeds, d, w.history[k].saved, w.history[k].age, w.history[k].age);
      }
    }
  }

  /** Making one more object. */
  function Making(w: World, id: Identity): World { w.(made := w.made + {id}) }

  lemma MakingLawful(w: World, id: Identity)
    requires Lawful(w) && id.token in w.issued
    ensures Lawful(Making(w, id))
  {
  }

  /** The world of a run that begins with this moment. */
  function Begun(i: Instant, quiet: bool): World {
    World(i.ns, i.saved, i.issued, i.made, quiet, i.(age := 0), [], [], [i.(age := 0)])
  }

  lemma BegunLawful(i: Instant, quiet: bool)
    requires Sane(i)
    ensures Lawful(Begun(i, quiet))
  {
  }

  class Backend {
    var w: World
    /** Nobody else changes the namespace. */
    const quiet: bool
    /** The moment it began with. */
    const start: Instant
    /** Calls fail only when the namespace does not allow them. */
    const reliable: bool
    const proposal: Proposal

    constructor (i: Instant, quiet: bool, reliable: bool, proposal: Proposal)
      requires Sane(i)
      ensures w == Begun(i, quiet)
      ensures Fit() && this.quiet == quiet && this.reliable == reliable && this.proposal == proposal
      ensures start == i.(age := 0)
    {
      BegunLawful(i, quiet);
      w := Begun(i, quiet);
      this.quiet, this.start, this.reliable, this.proposal := quiet, i.(age := 0), reliable, proposal;
    }

    /** The world knows where it began and whether others are about. */
    ghost predicate Fit()
      reads this
    {
      Lawful(w) && w.quiet == quiet && w.start == start
    }

    /** Somebody else's changes: anything that keeps the tree a tree and forges no token. */
    method Disturb()
      requires Fit()
      modifies this`w
      ensures Fit() && w == old(w).(ns := w.ns)
      ensures quiet ==> w == old(w)
    {
      if !quiet {
        var other: Namespace := *;
        if Closed(other) && Unforged(other, w.issued, w.made) { w := w.(ns := other); }
      }
    }

    method Faulty() returns (fault: bool)
      ensures reliable ==> !fault
    {
      fault := *;
      if reliable { fault := false; }
    }

    method AnyFailure() returns (status: Status)
      ensures status != Ok && status != PathExists
    {
      status := *;
      if status == Ok || status == PathExists { status := Failed; }
    }

    // Queries.

    method PathState(p: Path) returns (state: int)
      requires Fit()
      modifies this`w
      ensures Fit() && w == old(w).(ns := w.ns)
      ensures quiet ==> w == old(w)
      ensures state == -1 || state == (if p in w.ns then 1 else 0)
      ensures reliable ==> state != -1
    {
      Disturb();
      var fault := Faulty();
      state := if fault then -1 else if p in w.ns then 1 else 0;
    }

    /** An identity is reported only when it is a valid one. */
    method PathIdentity(p: Path) returns (status: Status, id: Identity)
      requires Fit()
      modifies this`w
      ensures Fit() && w == old(w).(ns := w.ns)
      ensures quiet ==> w == old(w)
      ensures status == Ok ==> p in w.ns && id == w.ns[p].id && id.Valid()
      ensures reliable && p in w.ns && w.ns[p].id.Valid() ==> status == Ok
    {
      Disturb();
      id := NO_IDENTITY;
      var fault := Faulty();
      if fault || p !in w.ns || !w.ns[p].id.Valid() {
        status := AnyFailure();
      } else {
        status, id := Ok, w.ns[p].id;
      }
    }

    /** The identity behind an open handle of the object last seen at `p`. */
    method HandleIdentity(p: Path) returns (status: Status, id: Identity)
      requires Fit()
      modifies this`w
      ensures Fit() && w == old(w).(ns := w.ns)
      ensures quiet ==> w == old(w)
      ensures quiet && status == Ok && p in w.ns ==> id == w.ns[p].id
      ensures reliable ==> status == Ok
    {
      Disturb();
      id := *;
      if quiet && p in w.ns { id := w.ns[p].id; }
      var fault := Faulty();
      status := AnyFailure();
      if !fault { status := Ok; }
    }

    /** The bytes of the object at `p`: a file's content or a symbolic link's target. */
    method Load(p: Path) returns (status: Status, content: seq<bv8>)
      requires Fit()
      modifies this`w
      ensures Fit() && w == old(w).(ns := w.ns)
      ensures quiet ==> w == old(w)
      ensures quiet && status == Ok ==> p in w.ns && content == w.ns[p].content
      ensures reliable && p in w.ns ==> status == Ok
    {
      Disturb();
      var fault := Faulty();
      status := AnyFailure();
      content := [];
      if !fault && p in w.ns { status, content := Ok, w.ns[p].content; }
    }

    /** A call that touches no name: a sync, a close, a metadata copy. */
    method Touch() returns (status: Status)
      requires Fit()
      modifies this`w
      ensures Fit() && w == old(w).(ns := w.ns)
      ensures quiet ==> w == old(w)
      ensures reliable ==> status == Ok
      ensures status != PathExists
    {
      Disturb();
      var fault := Faulty();
      status := AnyFailure();
      if !fault { status := Ok; }
    }

    /** A random token that no object carries and that was never handed out before. */
    method RandomToken() returns (ok: bool, token: Token)
      requires Fit()
      modifies this`w
      ensures Fit() && w == old(w).(ns := w.ns, issued := w.issued)
      ensures quiet ==> w.ns == old(w.ns)
      ensures ok ==> token != 0 && w.issued == old(w.issued) + {token}
      ensures ok ==> forall p :: p in w.ns ==> w.ns[p].id.token != token
      ensures !ok ==> w.issued == old(w.issued)
      ensures reliable ==> ok
    {
      Disturb();
      token := 0;
      var fault := Faulty();
      if fault { return false, 0; }
      var used := w.issued + (set p | p in w.ns :: w.ns[p].id.token) + {0};
      FreshToken(used);
      token :| token !in used;
      assert forall p :: p in w.ns ==> w.ns[p].id.token in used;
      w := w.(issued := w.issued + {token});
      ok := true;
    }

    // Changes.

    /** Stores the record, unless it is one that could not be restored. A failure may be reported
        after the record became durable. */
    method Checkpoint(r: Record) returns (ok: bool)
      requires Fit() && SameJob(w.saved, r) && Own(r, w.issued) && Due(w.quiet, w.start, w.deeds, r, |w.deeds|)
      modifies this`w
      ensures Fit() && w == old(w).(ns := w.ns, saved := w.saved, history := w.history)
      ensures ok ==> w.saved == r
      ensures w.saved == r || w.saved == old(w.saved)
      ensures quiet ==> w == Stored(old(w), r) || (!ok && w == old(w))
      ensures reliable && Restorable(r) ==> ok
    {
      Disturb();
      var fault := Faulty();
      var stored: bool := *;
      ok := !fault && Restorable(r);
      if ok || (stored && Restorable(r)) {
        StoredLawful(w, r);
        w := Stored(w, r);
      }
    }

    /** Removes the object at `p` when it is the expected one. */
    method RemoveExpected(p: Path, directory: bool, id: Identity)
      returns (status: Status, ghost done: bool, ghost deed: Deed)
      requires Fit()
      modifies this`w
      ensures Fit() && w == old(w).(ns := w.ns, deeds := w.deeds, history := w.history)
      ensures status == Ok ==> done
      ensures done ==>
        && deed.act == Remove(p) && deed.record == w.saved && Effect(deed) && SameObject(deed.before[p].id, id)
        && w.deeds == old(w.deeds) + [deed]
      ensures done && id.token in w.issued ==> id in w.made
      ensures !done ==> w.deeds == old(w.deeds)
      ensures quiet && !done ==> w == old(w)
      ensures quiet && done ==>
        && p in old(w.ns) && old(w.ns)[p].id == id && RemoveNode(old(w.ns), p, directory) == Some(w.ns)
        && w == Did(old(w), Remove(p), w.ns)
      ensures (reliable && quiet && p in old(w.ns) && SameObject(old(w.ns)[p].id, id) &&
               RemoveNode(old(w.ns), p, directory).Some?) ==> status == Ok
    {
      Disturb();
      done := false;
      var fault := Faulty();
      var late: bool := *;
      deed := Deed(Remove(p), w.ns, w.ns, w.saved);
      if p in w.ns && SameObject(w.ns[p].id, id) && RemoveNode(w.ns, p, directory).Some? && (!fault || late) {
        RemoveKeepsClosed(w.ns, p, directory);
        deed, done := Deed(Remove(p), w.ns, w.ns - {p}, w.saved), true;
        DidLawful(w, Remove(p), w.ns - {p});
        w := Did(w, Remove(p), w.ns - {p});
        if !fault { return Ok, true, deed; }
      }
      status := AnyFailure();
    }

    /** Renames a subtree to a free path when its root is the expected object. */
    method RenameExpected(a: Path, b: Path, id: Identity)
      returns (status: Status, ghost done: bool, ghost deed: Deed)
      requires Fit()
      modifies this`w
      ensures Fit() && w == old(w).(ns := w.ns, deeds := w.deeds, history := w.history)
      ensures status == Ok ==> done
      ensures done ==>
        && deed.act == Rename(a, b) && deed.record == w.saved && Effect(deed) && SameObject(deed.before[a].id, id)
        && w.deeds == old(w.deeds) + [deed]
      ensures !done ==> w.deeds == old(w.deeds)
      ensures quiet && !done ==> w == old(w)
      ensures quiet && done ==>
        && CanMove(old(w.ns), a, b) && old(w.ns)[a].id == id && w.ns == Moved(old(w.ns), a, b)
        && w == Did(old(w), Rename(a, b), w.ns)
      ensures reliable && quiet && CanMove(old(w.ns), a, b) && SameObject(old(w.ns)[a].id, id) ==> status == Ok
    {
      Disturb();
      done := false;
      var fault := Faulty();
      var late: bool := *;
      deed := Deed(Rename(a, b), w.ns, w.ns, w.saved);
      if CanMove(w.ns, a, b) && SameObject(w.ns[a].id, id) && (!fault || late) {
        MovedKeepsClosed(w.ns, a, b);
        MovedKeepsUnforged(w.ns, a, b, w.issued, w.made);
        deed, done := Deed(Rename(a, b), w.ns, Moved(w.ns, a, b), w.saved), true;
        DidLawful(w, Rename(a, b), Moved(w.ns, a, b));
        w := Did(w, Rename(a, b), Moved(w.ns, a, b));
        if !fault { return Ok, true, deed; }
      }
      status := AnyFailure();
    }

    /** Creates an object marked with `token`; `PathExists` promises that nothing was created. */
    method CreateMarked(p: Path, kind: NodeKind, token: Token, content: seq<bv8>)
      returns (status: Status, ghost done: bool, ghost node: Node)
      requires Fit() && token in w.issued && w.saved.head.operation.Copy?
      modifies this`w
      ensures Fit() && w == old(w).(ns := w.ns, made := w.made, deeds := w.deeds, history := w.history)
      ensures w.made >= old(w.made)
      ensures status == Ok ==> done
      ensures status == PathExists ==> !done && p in w.ns
      ensures Harmless(old(w.deeds), old(w.made)) ==> Harmless(w.deeds, w.made)
      ensures quiet && !done ==> w == old(w)
      ensures quiet && done ==>
        && CanCreate(old(w.ns), p) && node.id.Valid() && node.id.token == token && node.kind == kind
        && node.content == content
        && w == Did(Making(old(w), node.id), Create(p), old(w.ns)[p := node])
      ensures reliable && quiet && CanCreate(old(w.ns), p) ==> status == Ok
    {
      Disturb();
      done := false;
      node := Node(NO_IDENTITY, kind, content);
      var fault := Faulty();
      var late: bool := *;
      if CanCreate(w.ns, p) && (!fault || late) {
        var id: Identity := *;
        if !id.Valid() || id.token != token { id := Identity(0, 1, 1, token); }
        node, done := Node(id, kind, content), true;
        Make(p, Node(id, kind, content));
        if !fault { return Ok, true, node; }
      } else if p in w.ns && !fault {
        return PathExists, false, node;
      }
      status := AnyFailure();
    }

    method Make(p: Path, node: Node)
      requires Fit() && CanCreate(w.ns, p) && node.id.token in w.issued && w.saved.head.operation.Copy?
      modifies this`w
      ensures Fit() && w == Did(Making(old(w), node.id), Create(p), old(w.ns)[p := node])
      ensures Harmless(old(w.deeds), old(w.made)) ==> Harmless(w.deeds, w.made)
    {
      var ns := w.ns[p := node];
      CreateThenRemove(w.ns, p, node);
      MakingLawful(w, node.id);
      DidLawful(Making(w, node.id), Create(p), ns);
      ghost var deed := Deed(Create(p), w.ns, ns, w.saved);
      if Harmless(w.deeds, w.made) { DeedKeepsHarmless(w.deeds, w.made, w.made + {node.id}, deed); }
      w := Did(Making(w, node.id), Create(p), ns);
    }

    /** Gives the object at `from` the name `to` as well; the old name may or may not survive. The
        call goes by path: whatever stands at `from` is published. */
    method PublishAt(from: Path, to: Path) returns (status: Status, ghost done: bool, ghost deed: Deed)
      requires Fit()
      modifies this`w
      ensures Fit() && w == old(w).(ns := w.ns, deeds := w.deeds, history := w.history)
      ensures status == Ok ==> done
      ensures done ==>
        deed.act == Publish(from, to) && deed.record == w.saved && Effect(deed) && w.deeds == old(w.deeds) + [deed]
      ensures !done ==> w.deeds == old(w.deeds)
      ensures quiet && !done ==> w == old(w)
      ensures quiet && done ==>
        && from in old(w.ns) && CanCreate(old(w.ns), to) && w == Did(old(w), Publish(from, to), w.ns)
        && (w.ns == old(w.ns)[to := old(w.ns)[from]] ||
            (NoChildren(old(w.ns), from) && !(from <= to) && w.ns == old(w.ns)[to := old(w.ns)[from]] - {from}))
      ensures reliable && quiet && from in old(w.ns) && CanCreate(old(w.ns), to) ==> status == Ok
    {
      Disturb();
      done := false;
      var fault := Faulty();
      var late: bool := *;
      var keep: bool := *;
      deed := Deed(Publish(from, to), w.ns, w.ns, w.saved);
      if from in w.ns && CanCreate(w.ns, to) && (!fault || late) {
        CreateThenRemove(w.ns, to, w.ns[from]);
        var ns := w.ns[to := w.ns[from]];
        if !keep && !(from <= to) && NoChildren(w.ns, from) {
          UnlinkKeepsClosed(w.ns, from, to);
          ns := ns - {from};
        }
        deed, done := Deed(Publish(from, to), w.ns, ns, w.saved), true;
        DidLawful(w, Publish(from, to), ns);
        w := Did(w, Publish(from, to), ns);
        if !fault { return Ok, true, deed; }
      }
      status := AnyFailure();
    }

    /** A hard link: a second name for the same object. */
    method LinkAs(from: Path, to: Path) returns (status: Status, ghost done: bool)
      requires Fit() && w.saved.head.operation.Copy?
      modifies this`w
      ensures Fit() && w == old(w).(ns := w.ns, deeds := w.deeds, history := w.history)
      ensures status == Ok ==> done
      ensures status == PathExists ==> !done && to in w.ns
      ensures Harmless(old(w.deeds), w.made) ==> Harmless(w.deeds, w.made)
      ensures quiet && !done ==> w == old(w)
      ensures quiet && done ==>
        && from in old(w.ns) && CanCreate(old(w.ns), to) && !old(w.ns)[from].kind.DirectoryNode?
        && w == Did(old(w), Link(from, to), old(w.ns)[to := old(w.ns)[from]])
      ensures (reliable && quiet && from in old(w.ns) && CanCreate(old(w.ns), to) &&
               !old(w.ns)[from].kind.DirectoryNode?) ==> status == Ok
    {
      Disturb();
      done := false;
      var fault := Faulty();
      var late: bool := *;
      if from in w.ns && CanCreate(w.ns, to) && !w.ns[from].kind.DirectoryNode? && (!fault || late) {
        var ns := w.ns[to := w.ns[from]];
        CreateThenRemove(w.ns, to, w.ns[from]);
        DidLawful(w, Link(from, to), ns);
        if Harmless(w.deeds, w.made) {
          DeedKeepsHarmless(w.deeds, w.made, w.made, Deed(Link(from, to), w.ns, ns, w.saved));
        }
        w := Did(w, Link(from, to), ns);
        done := true;
        if !fault { return Ok, true; }
      } else if to in w.ns && !fault {
        return PathExists, false;
      }
      status := AnyFailure();
    }

    /** Bytes written through an open handle of the object `id`: they reach that object and no other,
        whatever stands at its path by now. */
    method SetContent(p: Path, id: Identity, content: seq<bv8>)
      requires Fit() && id.token in w.issued && w.saved.head.operation.Copy?
      modifies this`w
      ensures Fit() && w == old(w).(ns := w.ns, deeds := w.deeds, history := w.history)
      ensures Harmless(old(w.deeds), w.made) ==> Harmless(w.deeds, w.made)
      ensures quiet && p in old(w.ns) && old(w.ns)[p].id == id ==>
        w == Did(old(w), Write(p), old(w.ns)[p := old(w.ns)[p].(content := content)])
      ensures quiet && !(p in old(w.ns) && old(w.ns)[p].id == id) ==> w == old(w)
    {
      Disturb();
      if p in w.ns && w.ns[p].id == id {
        var ns := w.ns[p := w.ns[p].(content := content)];
        DidLawful(w, Write(p), ns);
        if Harmless(w.deeds, w.made) {
          DeedKeepsHarmless(w.deeds, w.made, w.made, Deed(Write(p), w.ns, ns, w.saved));
        }
        w := Did(w, Write(p), ns);
      }
    }
  }

  lemma FreshToken(used: set<Token>)
    ensures exists t: Token :: t !in used
  {
    var bound := Bound(used);
    assert bound !in used;
  }

  ghost function Bound(used: set<Token>): (b: Token)
    ensures forall t :: t in used ==> t < b
  {
    if used == {} then 0
    else
      var t :| t in used;
      assert forall u :: u in used ==> u == t || u in used - {t};
      var rest := Bound(used - {t});
      if rest <= t then t + 1 else rest
  }

  lemma MovedKeepsUnforged(ns: Namespace, a: Path, b: Path, issued: set<Token>, made: set<Identity>)
    requires Closed(ns) && CanMove(ns, a, b) && Unforged(ns, issued, made)
    ensures Unforged(Moved(ns, a, b), issued, made)
  {
    forall q | q in Moved(ns, a, b) && Moved(ns, a, b)[q].id.token in issued
      ensures Moved(ns, a, b)[q].id in made
    {
      MovedAt(ns, a, b, q);
    }
  }

  lemma UnlinkKeepsClosed(ns: Namespace, from: Path, to: Path)
    requires Closed(ns) && from in ns && CanCreate(ns, to) && NoChildren(ns, from)
    requires !(from <= to)
    ensures Closed(ns[to := ns[from]] - {from})
  {
    var m := ns[to := ns[from]] - {from};
    forall q | q in m && q != [] ensures Parent(q) in m {
      assert Parent(q) == from ==> from < q;
      assert Parent(to) == from ==> from <= to;
    }
  }
}
