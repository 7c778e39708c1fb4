/** A copy that may replace what is there and can succeed does. */
module ReplaceProgress {
  import opened Common
  import opened Namespaces
  import opened UndoSpec
  import opened ForwardSpec
  import opened FileBackend
  import opened FileOperations
  import opened FileCopy
  import opened CopyStream
  import opened CopyRun
  import opened FileMove
  import opened Whereabouts
  import opened FileRuns
  import opened CopyProgress

  // What the plan needs of the namespace it starts from.

  /** A path that an entry may use: its destination, or what is proposed as a backup path for it. */
  ghost predicate OwnPlace(proposal: Proposal, e: Entry, p: Path) {
    p == e.task.dest || exists id :: proposal(e.task.dest, id) == Some(p)
  }

  /** No such path lies at or above one of another entry, a source or a temporary name, nor a backup path above
      its own destination; and no temporary name is taken. */
  ghost predicate Distinct(x: Namespace, plan: seq<Entry>, proposal: Proposal) {
    && (forall j, k, p :: 0 <= j < |plan| && 0 <= k < |plan| && OwnPlace(proposal, plan[j], p) ==>
          !(p <= plan[k].task.source))
    && (forall j, k, p, q ::
          (0 <= j < |plan| && 0 <= k < |plan| && j != k && OwnPlace(proposal, plan[j], p) &&
           OwnPlace(proposal, plan[k], q)) ==>
            !(p <= q))
    && (forall j, p :: 0 <= j < |plan| && OwnPlace(proposal, plan[j], p) && p != plan[j].task.dest ==>
          !(p <= plan[j].task.dest))
    && (forall j, p, t :: 0 <= j < |plan| && OwnPlace(proposal, plan[j], p) && TempName(plan, t) ==> !(p <= t))
    && (forall t :: TempName(plan, t) ==> t !in x)
  }

  /** The entry copies a file that is there as planned to a place in a directory, and what it finds there can be
      moved to the path that is proposed for it. */
  predicate SuitedEntry(x: Namespace, e: Entry, proposal: Proposal) {
    && e.task.kind.File? && e.task.source in x && |x[e.task.source].content| == e.task.size
    && e.task.dest != [] && Parent(e.task.dest) in x
    && (e.task.dest in x ==> ProposalFits(x, e, proposal))
  }

  ghost predicate Suited(x: Namespace, plan: seq<Entry>, proposal: Proposal) {
    Distinct(x, plan, proposal) && forall j :: 0 <= j < |plan| ==> SuitedEntry(x, plan[j], proposal)
  }

  // Everything else stays where it was.

  /** The path lies neither at or below the destination of the entry nor at or below its backup path. */
  predicate Outside(e: Entry, p: Path) {
    e.created ==> !(e.task.dest <= p) && (e.replacement.NotReplacing? || !(e.backup <= p))
  }

  lemma UndoneClosed(ns: Namespace, e: Entry)
    requires Closed(ns) && Finished(e) && UndoEntry(ns, e).Some?
    ensures Closed(UndoEntry(ns, e).value)
  {
    if Done(e) {
      var gone := Cleaned(ns, e.task.dest, e.task.kind.Directory?, e.objectId, e.cleanup).value;
      if e.task.dest in ns { RemoveKeepsClosed(ns, e.task.dest, e.task.kind.Directory?); }
      if e.replacement.BackupHeld? && CanMove(gone, e.backup, e.task.dest) {
        MovedKeepsClosed(gone, e.backup, e.task.dest);
      }
      hide Moved, Closed;
    }
  }

  lemma OneUndone(ns: Namespace, e: Entry, p: Path)
    requires Closed(ns) && Finished(e) && Outside(e, p) && UndoEntry(ns, e).Some?
    ensures Closed(UndoEntry(ns, e).value) && At(UndoEntry(ns, e).value, p) == At(ns, p)
  {
    if Done(e) {
      var gone := Cleaned(ns, e.task.dest, e.task.kind.Directory?, e.objectId, e.cleanup).value;
      if e.task.dest in ns { RemoveKeepsClosed(ns, e.task.dest, e.task.kind.Directory?); }
      assert Closed(gone) && At(gone, p) == At(ns, p);
      if e.replacement.BackupHeld? && CanMove(gone, e.backup, e.task.dest) {
        MovedKeepsClosed(gone, e.backup, e.task.dest);
        MovedAt(gone, e.backup, e.task.dest, p);
      }
      hide Moved, Closed;
    }
  }

  lemma {:induction false} UndoneOutside(ns: Namespace, entries: seq<Entry>, k: nat, x: Namespace, p: Path)
    requires k <= |entries| && Closed(ns) && UndoPrefix(Some(ns), entries, k) == Some(x)
    requires forall j :: 0 <= j < k ==> Finished(entries[j]) && Outside(entries[j], p)
    ensures At(ns, p) == At(x, p)
    decreases k
  {
    hide UndoEntry, Closed, At, Finished, Outside;
    if k != 0 {
      var below := UndoEntry(ns, entries[k - 1]);
      if below.None? {
        NoneStaysNone(entries, k - 1);
      } else {
        OneUndone(ns, entries[k - 1], p);
        UndoneOutside(below.value, entries, k - 1, x, p);
      }
    }
  }

  /** A replacing run that stands between two entries. */
  ghost predicate Between(x: Namespace, claim: Claim, w: World, r: Record, stream: Stream) {
    && Sound(w, r) && Forward(claim, x, w, r, false, stream) && Recover(w.ns, r) == Some(x) && !r.tempCreated
    && r.head.operation.Copy?
  }

  /** One that has an entry before it. */
  ghost predicate BeforeReplacing(x: Namespace, claim: Claim, w: World, r: Record, stream: Stream) {
    Between(x, claim, w, r, stream) && r.head.entryIndex < |r.entries|
  }

  /** What lies outside the places of the entries behind is as it was at the start. */
  lemma StillThere(x: Namespace, claim: Claim, w: World, r: Record, stream: Stream, proposal: Proposal, p: Path)
    requires Between(x, claim, w, r, stream) && Backed(proposal, r.entries)
    requires forall j, q :: 0 <= j < r.head.entryIndex <= |r.entries| && OwnPlace(proposal, r.entries[j], q) ==>
      !(q <= p)
    ensures At(w.ns, p) == At(x, p)
  {
    SoundClosed(w, r);
    forall j | 0 <= j < |r.entries| ensures Finished(r.entries[j]) && Outside(r.entries[j], p) {
      BehindOutside(r.entries, r.head.entryIndex, proposal, p, j);
    }
    hide Sound, Closed, Finished, Outside, OwnPlace;
    UndoneOutside(w.ns, r.entries, |r.entries|, x, p);
  }

  lemma BehindOutside(entries: seq<Entry>, i: nat, proposal: Proposal, p: Path, j: nat)
    requires FinishedUpTo(entries, i) && PristineFrom(entries, i) && Backed(proposal, entries) && j < |entries|
    requires forall k, q :: 0 <= k < i && OwnPlace(proposal, entries[k], q) ==> !(q <= p)
    ensures Finished(entries[j]) && Outside(entries[j], p)
  {
    if j < i {
      assert BackedEntry(proposal, entries[j]);
      assert OwnPlace(proposal, entries[j], entries[j].task.dest);
      if !entries[j].replacement.NotReplacing? { assert OwnPlace(proposal, entries[j], entries[j].backup); }
    }
  }

  /** The places of the next entry are apart from those behind. */
  lemma NextIsApart(x: Namespace, plan: seq<Entry>, proposal: Proposal, i: nat, p: Path, j: nat, q: Path)
    requires Distinct(x, plan, proposal) && j < i < |plan| && OwnPlace(proposal, plan[j], q)
    requires
      || OwnPlace(proposal, plan[i], p) || p == plan[i].task.source || TempName(plan, p)
      || exists s :: OwnPlace(proposal, plan[i], s) && s != [] && p == Parent(s)
    ensures !(q <= p)
  {
    if s :| OwnPlace(proposal, plan[i], s) && s != [] && p == Parent(s) {
      assert p <= s && !(q <= s);
    }
  }

  lemma NextStands(x: Namespace, claim: Claim, w: World, r: Record, stream: Stream, proposal: Proposal, p: Path)
    requires BeforeReplacing(x, claim, w, r, stream) && Backed(proposal, r.entries)
    requires Distinct(x, r.entries, proposal)
    requires
      var e := r.entries[r.head.entryIndex];
      || OwnPlace(proposal, e, p) || p == e.task.source || TempName(r.entries, p)
      || exists s :: OwnPlace(proposal, e, s) && s != [] && p == Parent(s)
    ensures At(w.ns, p) == At(x, p)
  {
    hide Distinct, BeforeReplacing, OwnPlace, TempName;
    BeforeIndex(x, claim, w, r, stream);
    assert Between(x, claim, w, r, stream) by { BeforeIsBetween(x, claim, w, r, stream); }
    forall j, q | 0 <= j < r.head.entryIndex && OwnPlace(proposal, r.entries[j], q) ensures !(q <= p) {
      NextIsApart(x, r.entries, proposal, r.head.entryIndex, p, j, q);
    }
    StillThere(x, claim, w, r, stream, proposal, p);
  }

  lemma BeforeIsBetween(x: Namespace, claim: Claim, w: World, r: Record, stream: Stream)
    requires BeforeReplacing(x, claim, w, r, stream)
    ensures Between(x, claim, w, r, stream)
  {
  }

  lemma BeforeIndex(x: Namespace, claim: Claim, w: World, r: Record, stream: Stream)
    requires BeforeReplacing(x, claim, w, r, stream)
    ensures r.head.entryIndex < |r.entries| && Closed(w.ns)
  {
  }

  /** Nothing stands in the way of the next entry. */
  lemma ReplacingNext(x: Namespace, claim: Claim, w: World, r: Record, stream: Stream, proposal: Proposal,
                      sequence: nat)
    requires BeforeReplacing(x, claim, w, r, stream) && Backed(proposal, r.entries) && Suited(x, r.entries, proposal)
    ensures AllowsReplacing(w.ns, r.entries[r.head.entryIndex], sequence, proposal)
  {
    hide BeforeReplacing, Distinct, TempName, TempPathOf, Backed;
    BeforeIndex(x, claim, w, r, stream);
    var i := r.head.entryIndex;
    var e := r.entries[i];
    var temp := TempPathOf(e.task.dest, sequence);
    assert SuitedEntry(x, e, proposal);
    NameOfEntry(r.entries, i, sequence);
    TempIsFree(x, r.entries, proposal, temp);
    assert OwnPlace(proposal, e, e.task.dest);
    NextStands(x, claim, w, r, stream, proposal, e.task.source);
    NextStands(x, claim, w, r, stream, proposal, e.task.dest);
    NextStands(x, claim, w, r, stream, proposal, Parent(e.task.dest));
    NextStands(x, claim, w, r, stream, proposal, temp);
    if e.task.dest in w.ns {
      assert At(w.ns, e.task.dest) == At(x, e.task.dest);
      var b := proposal(e.task.dest, x[e.task.dest].id).value;
      assert OwnPlace(proposal, e, b);
      NextStands(x, claim, w, r, stream, proposal, b);
      NextStands(x, claim, w, r, stream, proposal, Parent(b));
      PlacesApart(x, r.entries, proposal, i, b, temp);
      OpensAfter(x, w.ns, e, b, temp, sequence, proposal);
    } else {
      OpensNow(x, w.ns, e, temp, sequence);
    }
  }

  lemma TempIsFree(x: Namespace, plan: seq<Entry>, proposal: Proposal, t: Path)
    requires Distinct(x, plan, proposal) && TempName(plan, t)
    ensures t !in x
  {
  }

  lemma PlacesApart(x: Namespace, plan: seq<Entry>, proposal: Proposal, i: nat, b: Path, t: Path)
    requires Distinct(x, plan, proposal) && i < |plan| && OwnPlace(proposal, plan[i], b) && b != plan[i].task.dest
    requires TempName(plan, t)
    ensures
      var task := plan[i].task;
      && !(task.dest <= task.source) && !(b <= task.source) && !(b <= task.dest) && !(task.dest <= t) && !(b <= t)
  {
    assert OwnPlace(proposal, plan[i], plan[i].task.dest);
  }

  lemma OpensNow(x: Namespace, ns: Namespace, e: Entry, temp: Path, sequence: nat)
    requires temp == TempPathOf(e.task.dest, sequence) && e.task.dest != []
    requires e.task.source in x && |x[e.task.source].content| == e.task.size && Parent(e.task.dest) in x
    requires temp !in x && At(ns, e.task.source) == At(x, e.task.source) && At(ns, temp) == At(x, temp)
    requires At(ns, Parent(e.task.dest)) == At(x, Parent(e.task.dest))
    ensures CanOpen(ns, e.task, sequence)
  {
    hide Digits;
  }

  /** After what is there was moved to `b`, the copy can be opened. */
  lemma OpensAfter(x: Namespace, ns: Namespace, e: Entry, b: Path, temp: Path, sequence: nat, proposal: Proposal)
    requires SuitedEntry(x, e, proposal) && temp == TempPathOf(e.task.dest, sequence) && temp !in x && Closed(ns)
    requires e.task.dest in x && proposal(e.task.dest, x[e.task.dest].id) == Some(b)
    requires At(ns, e.task.source) == At(x, e.task.source) && At(ns, e.task.dest) == At(x, e.task.dest)
    requires At(ns, temp) == At(x, temp) && At(ns, Parent(e.task.dest)) == At(x, Parent(e.task.dest))
    requires At(ns, b) == At(x, b) && At(ns, Parent(b)) == At(x, Parent(b))
    requires !(e.task.dest <= e.task.source) && !(b <= e.task.source) && !(b <= e.task.dest)
    requires !(e.task.dest <= temp) && !(b <= temp)
    ensures AllowsReplacing(ns, e, sequence, proposal)
  {
    hide TempPathOf, Moved;
    assert ProposalFits(ns, e, proposal);
    var away := Moved(ns, e.task.dest, b);
    StaysBeside(ns, e.task.dest, b, e.task.source);
    StaysBeside(ns, e.task.dest, b, temp);
    assert Parent(e.task.dest) <= e.task.dest;
    StaysBeside(ns, e.task.dest, b, Parent(e.task.dest));
    OpensNow(x, away, e, temp, sequence);
  }

  lemma StaysBeside(ns: Namespace, a: Path, b: Path, p: Path)
    requires Closed(ns) && CanMove(ns, a, b) && !(a <= p) && !(b <= p)
    ensures At(Moved(ns, a, b), p) == At(ns, p)
  {
    MovedAt(ns, a, b, p);
  }

  // What was displaced is where it was to go.

  /** Undoing a replacement brings back what is at the backup path. */
  lemma BroughtBack(ns: Namespace, e: Entry, t: Path)
    requires Closed(ns) && Done(e) && e.replacement.BackupHeld? && UndoEntry(ns, e).Some?
    requires e.backup != e.task.dest ==> !(e.backup <= e.task.dest)
    ensures At(UndoEntry(ns, e).value, e.task.dest + t) == At(ns, e.backup + t)
    ensures e.task.dest in UndoEntry(ns, e).value && UndoEntry(ns, e).value[e.task.dest].id == e.backupId
  {
    var gone := Cleaned(ns, e.task.dest, e.task.kind.Directory?, e.objectId, e.cleanup).value;
    if e.task.dest in ns { RemoveKeepsClosed(ns, e.task.dest, e.task.kind.Directory?); }
    assert e.backup + t != e.task.dest;
    MovedAt(gone, e.backup, e.task.dest, e.task.dest + t);
    MovedAt(gone, e.backup, e.task.dest, e.task.dest);
    assert (e.task.dest + t)[|e.task.dest|..] == t;
    assert e.backup + e.task.dest[|e.task.dest|..] == e.backup;
  }

  /** The destination of an entry that displaced nothing was free. */
  lemma NothingBrought(ns: Namespace, e: Entry)
    requires Closed(ns) && Done(e) && e.replacement.NotReplacing? && UndoEntry(ns, e).Some?
    ensures e.task.dest !in UndoEntry(ns, e).value
  {
  }

  /** The layer of entry `j` among the others: those above it leave `p` alone, those below it `q`. */
  lemma {:induction false} LayerOf(ns: Namespace, entries: seq<Entry>, k: nat, x: Namespace, j: nat, p: Path, q: Path)
      returns (mid: Namespace)
    requires j < k <= |entries| && Closed(ns) && UndoPrefix(Some(ns), entries, k) == Some(x)
    requires forall i :: 0 <= i < k ==> Finished(entries[i])
    requires forall i :: j < i < k ==> Outside(entries[i], p)
    requires forall i :: 0 <= i < j ==> Outside(entries[i], q)
    ensures Closed(mid) && At(mid, p) == At(ns, p) && UndoEntry(mid, entries[j]).Some?
    ensures At(UndoEntry(mid, entries[j]).value, q) == At(x, q)
    decreases k
  {
    hide UndoEntry, Closed, Finished, Outside, At;
    var below := UndoEntry(ns, entries[k - 1]);
    if below.None? {
      NoneStaysNone(entries, k - 1);
      mid := ns;
    } else if k - 1 != j {
      OneUndone(ns, entries[k - 1], p);
      mid := LayerOf(below.value, entries, k - 1, x, j, p, q);
    } else {
      mid := ns;
      UndoneClosed(ns, entries[j]);
      UndoneOutside(below.value, entries, j, x, q);
    }
  }

  /** A file that was copied, with what it displaced at the path proposed for it. */
  ghost predicate Replaced(x: Namespace, ns: Namespace, plan: seq<Entry>, j: nat, proposal: Proposal)
    requires j < |plan|
  {
    var dest := plan[j].task.dest;
    && Delivered(x, ns, plan, j) && SourceKept(x, ns, plan[j].task)
    && (dest in x ==>
          var backup := proposal(dest, x[dest].id);
          backup.Some? && SameTree(ns, backup.value, x, dest))
  }

  /** A place of one entry is not above anything at or below a place of another. */
  lemma NeverAbove(x: Namespace, plan: seq<Entry>, proposal: Proposal, j: nat, p: Path, t: Path, k: nat, q: Path)
    requires Distinct(x, plan, proposal) && j < |plan| && k < |plan| && j != k
    requires OwnPlace(proposal, plan[j], p) && OwnPlace(proposal, plan[k], q)
    ensures !(q <= p + t)
  {
    hide OwnPlace;
    assert !(p <= q) && !(q <= p);
    OneAbove(p, q, t);
  }

  lemma OneAbove(p: Path, q: Path, t: Path)
    ensures q <= p + t ==> q <= p || p <= q
  {
    if q <= p + t {
      assert if |q| <= |p| then q == (p + t)[..|q|] == p[..|q|] else p == (p + t)[..|p|] == q[..|p|];
    }
  }

  lemma OthersOutside(x: Namespace, entries: seq<Entry>, proposal: Proposal, j: nat, p: Path, t: Path, k: nat)
    requires Distinct(x, entries, proposal) && Backed(proposal, entries) && j < |entries| && k < |entries| && j != k
    requires OwnPlace(proposal, entries[j], p)
    ensures Outside(entries[k], p + t)
  {
    hide Distinct, OwnPlace;
    assert BackedEntry(proposal, entries[k]);
    PlacesOf(proposal, entries[k]);
    NeverAbove(x, entries, proposal, j, p, t, k, entries[k].task.dest);
    if !entries[k].replacement.NotReplacing? { NeverAbove(x, entries, proposal, j, p, t, k, entries[k].backup); }
  }

  lemma PlacesOf(proposal: Proposal, e: Entry)
    requires BackedEntry(proposal, e)
    ensures OwnPlace(proposal, e, e.task.dest)
    ensures !e.replacement.NotReplacing? ==> OwnPlace(proposal, e, e.backup)
  {
  }

  lemma BackupBelow(x: Namespace, plan: seq<Entry>, proposal: Proposal, j: nat, p: Path)
    requires Distinct(x, plan, proposal) && j < |plan| && OwnPlace(proposal, plan[j], p) && p != plan[j].task.dest
    ensures !(p <= plan[j].task.dest)
  {
  }

  /** What undoing finds of entry `j`, and what it makes of it. */
  lemma ReplacedAt(ns: Namespace, entries: seq<Entry>, x: Namespace, proposal: Proposal, j: nat, t: Path)
    requires Distinct(x, entries, proposal) && Backed(proposal, entries) && j < |entries| && Closed(ns)
    requires UndoPrefix(Some(ns), entries, |entries|) == Some(x)
    requires (forall i :: 0 <= i < |entries| ==> Finished(entries[i])) && Done(entries[j])
    ensures entries[j].replacement.NotReplacing? ==> entries[j].task.dest !in x
    ensures entries[j].replacement.BackupHeld? ==>
      && At(ns, entries[j].backup + t) == At(x, entries[j].task.dest + t)
      && (t == [] ==> entries[j].task.dest in x && x[entries[j].task.dest].id == entries[j].backupId)
  {
    hide Distinct, OwnPlace, Finished, Outside, UndoEntry, Closed;
    var e, n := entries[j], |entries|;
    assert BackedEntry(proposal, e);
    PlacesOf(proposal, e);
    if e.replacement.NotReplacing? {
      forall k | 0 <= k < n && k != j ensures Outside(entries[k], e.task.dest) {
        OthersOutside(x, entries, proposal, j, e.task.dest, [], k);
        assert e.task.dest + [] == e.task.dest;
      }
      var mid := LayerOf(ns, entries, n, x, j, e.task.dest, e.task.dest);
      NothingBrought(mid, e);
    } else {
      forall k | 0 <= k < n && k != j
        ensures Outside(entries[k], e.backup + t) && Outside(entries[k], e.task.dest + t)
      {
        OthersOutside(x, entries, proposal, j, e.backup, t, k);
        OthersOutside(x, entries, proposal, j, e.task.dest, t, k);
      }
      if e.backup != e.task.dest { BackupBelow(x, entries, proposal, j, e.backup); }
      var mid := LayerOf(ns, entries, n, x, j, e.backup + t, e.task.dest + t);
      BroughtBack(mid, e, t);
      assert t == [] ==> e.task.dest + t == e.task.dest;
    }
  }

  // The whole run.

  lemma SuitedSame(x: Namespace, a: seq<Entry>, b: seq<Entry>, proposal: Proposal)
    requires SameTasks(a, b) && Suited(x, a, proposal)
    ensures Suited(x, b, proposal)
  {
    forall j | 0 <= j < |a| ensures SameTask(a[j], b[j]) { }
    forall j, p | 0 <= j < |a| ensures OwnPlace(proposal, a[j], p) == OwnPlace(proposal, b[j], p) {
      assert SameTask(a[j], b[j]);
    }
    forall t ensures TempName(a, t) == TempName(b, t) {
      NameOfPlan(a, b, t);
      NameOfPlan(b, a, t);
    }
    forall j | 0 <= j < |b| ensures SuitedEntry(x, b[j], proposal) {
      assert SuitedEntry(x, a[j], proposal);
    }
    hide OwnPlace, TempName, SuitedEntry;
  }

  lemma ReplacingIsAble(op: Operation, ns: Namespace, plan: seq<Entry>, limit: nat)
    requires op.Well() && SameJob(StartedRecord(Copy, ConflictReplace, plan), op.r)
    requires Startable(Copy, ConflictReplace, plan, limit)
    requires InPhase(Some(ns), op.claim, true, op.backend.w, op.r, op.fileOpen, op.stream, Going)
    requires Suited(ns, plan, op.backend.proposal) && Backed(op.backend.proposal, op.r.entries)
    requires op.backend.reliable && op.capacity > 0 && !op.cancelRequested
    ensures Able(op) && Left(op.r, op.fileOpen, op.stream) >= 0 && op.r.head.operation.Copy?
  {
    hide Sound, InPhase, StartedRecord, AllowsReplacing, Left, Startable, Suited, SameTasks, Skipped, Backed;
    PlanOf(Copy, ConflictReplace, plan, limit, op.r);
    JobHead(ConflictReplace, plan, op.r);
    SuitedSame(ns, plan, op.r.entries, op.backend.proposal);
    GoingRuns(Some(ns), op.claim, op.backend.w, op.r, op.fileOpen, op.stream);
    if op.r.head.entryIndex < |op.r.entries| && !op.fileOpen {
      GoingIsBefore(ns, op.claim, op.backend.w, op.r, op.stream);
      ReplacingNext(ns, op.claim, op.backend.w, op.r, op.stream, op.backend.proposal, op.tempSequence + 1);
    }
  }

  lemma GoingIsBefore(x: Namespace, claim: Claim, w: World, r: Record, stream: Stream)
    requires Sound(w, r) && InPhase(Some(x), claim, true, w, r, false, stream, Going)
    requires r.head.entryIndex < |r.entries|
    ensures BeforeReplacing(x, claim, w, r, stream)
  {
  }

  lemma StartedBacked(proposal: Proposal, policy: Policy, plan: seq<Entry>, limit: nat)
    requires Startable(Copy, policy, plan, limit)
    ensures Backed(proposal, StartedRecord(Copy, policy, plan).entries)
  {
    forall j | 0 <= j < |plan| ensures StartedEntry(plan[j]).replacement.NotReplacing? {
      assert StartableEntry(Copy, plan, j);
    }
  }

  lemma BackedOn(proposal: Proposal, a: seq<Entry>, b: seq<Entry>)
    requires Backed(proposal, a) && KeepsBacked(proposal, a, b)
    ensures Backed(proposal, b)
  {
  }

  lemma CopiedIsBetween(x: Namespace, claim: Claim, w: World, r: Record, stream: Stream)
    requires Sound(w, r) && InPhase(Some(x), claim, true, w, r, false, stream, Copied)
    ensures Between(x, claim, w, r, stream) && Closed(w.ns) && r.head.entryIndex == |r.entries|
  {
    hide Recover;
  }

  lemma CopiedIsUndone(x: Namespace, claim: Claim, w: World, r: Record, stream: Stream)
    requires Between(x, claim, w, r, stream) && r.head.entryIndex == |r.entries|
    requires InPhase(Some(x), claim, true, w, r, false, stream, Copied) && r.head.policy.ConflictReplace?
    ensures UndoPrefix(Some(w.ns), r.entries, |r.entries|) == Some(x)
    ensures forall i :: 0 <= i < |r.entries| ==> Finished(r.entries[i]) && Done(r.entries[i])
  {
    hide Sound, UndoPrefix;
    forall i | 0 <= i < |r.entries| ensures Done(r.entries[i]) {
      assert !Skipped(r.entries, i);
    }
  }

  lemma SuitedIsUnmixed(x: Namespace, plan: seq<Entry>, proposal: Proposal)
    requires Suited(x, plan, proposal)
    ensures Unmixed(plan) && Distinct(x, plan, proposal) && forall j :: 0 <= j < |plan| ==> plan[j].task.kind.File?
  {
    forall j | 0 <= j < |plan| ensures OwnPlace(proposal, plan[j], plan[j].task.dest) && plan[j].task.kind.File? {
      assert SuitedEntry(x, plan[j], proposal);
    }
  }

  /** The finished copy of the plan, entry by entry. */
  lemma AllReplaced(op: Operation, ns: Namespace, plan: seq<Entry>, limit: nat)
    requires op.Well() && SameJob(StartedRecord(Copy, ConflictReplace, plan), op.r)
    requires Startable(Copy, ConflictReplace, plan, limit) && Suited(ns, plan, op.backend.proposal)
    requires InPhase(Some(ns), op.claim, true, op.backend.w, op.r, false, op.stream, Copied)
    requires Backed(op.backend.proposal, op.r.entries)
    ensures forall j :: 0 <= j < |plan| ==> Replaced(ns, op.backend.w.ns, plan, j, op.backend.proposal)
    ensures forall p :: Elsewhere(plan, op.backend.proposal, p) ==> At(op.backend.w.ns, p) == At(ns, p)
  {
    hide Sound, InPhase, Startable, Suited, StartedRecord, Distinct, OwnPlace, Replaced, Between, Elsewhere, SameTasks,
      Backed, Unmixed;
    var w, r, proposal := op.backend.w, op.r, op.backend.proposal;
    PlanOf(Copy, ConflictReplace, plan, limit, r);
    JobHead(ConflictReplace, plan, r);
    SuitedSame(ns, plan, r.entries, proposal);
    SuitedIsUnmixed(ns, r.entries, proposal);
    CopiedIsBetween(ns, op.claim, w, r, op.stream);
    CopiedIsUndone(ns, op.claim, w, r, op.stream);
    forall j | 0 <= j < |plan| ensures Replaced(ns, w.ns, plan, j, proposal) {
      ReplacementIsFaithful(ns, op.claim, w, r, op.stream, j);
      EntryReplaced(ns, w.ns, r.entries, proposal, j);
      ReplacedSame(ns, w.ns, plan, r.entries, proposal, j);
    }
    forall p | Elsewhere(plan, proposal, p) ensures At(w.ns, p) == At(ns, p) {
      ElsewhereSame(plan, r.entries, proposal, p);
      StillThere(ns, op.claim, w, r, op.stream, proposal, p);
    }
  }

  lemma EntryReplaced(x: Namespace, ns: Namespace, entries: seq<Entry>, proposal: Proposal, j: nat)
    requires Distinct(x, entries, proposal) && Backed(proposal, entries) && j < |entries| && Closed(ns)
    requires UndoPrefix(Some(ns), entries, |entries|) == Some(x)
    requires forall i :: 0 <= i < |entries| ==> Finished(entries[i]) && Done(entries[i])
    requires Delivered(x, ns, entries, j) && SourceKept(x, ns, entries[j].task)
    ensures Replaced(x, ns, entries, j, proposal)
  {
    hide Distinct, Delivered, UndoPrefix, Finished;
    var e := entries[j];
    forall t ensures e.replacement.BackupHeld? ==> At(ns, e.backup + t) == At(x, e.task.dest + t) {
      ReplacedAt(ns, entries, x, proposal, j, t);
    }
    ReplacedAt(ns, entries, x, proposal, j, []);
    assert BackedEntry(proposal, e);
  }

  lemma ReplacedSame(x: Namespace, ns: Namespace, a: seq<Entry>, b: seq<Entry>, proposal: Proposal, j: nat)
    requires SameTasks(a, b) && j < |a| && Replaced(x, ns, b, j, proposal)
    ensures Replaced(x, ns, a, j, proposal)
  {
    forall i | 0 <= i < |a| ensures a[i].task == b[i].task { assert SameTask(a[i], b[i]); }
    hide SameTree, RightKind, Carried;
  }

  /** The path is neither at nor below a place of an entry. */
  ghost predicate Elsewhere(plan: seq<Entry>, proposal: Proposal, p: Path) {
    forall j, q :: 0 <= j < |plan| && OwnPlace(proposal, plan[j], q) ==> !(q <= p)
  }

  lemma ElsewhereSame(a: seq<Entry>, b: seq<Entry>, proposal: Proposal, p: Path)
    requires SameTasks(a, b) && Elsewhere(a, proposal, p)
    ensures Elsewhere(b, proposal, p)
  {
    forall j, q | 0 <= j < |b| && OwnPlace(proposal, b[j], q) ensures !(q <= p) {
      assert SameTask(a[j], b[j]) && OwnPlace(proposal, a[j], q);
    }
  }

  /** Every copy of files that may replace what it finds comes to its end when its places are apart from each
      other and from the sources, the proposed backup paths can be used, nobody else touches the namespace,
      nobody cancels and calls fail only for cause; in at most two pumps an entry, one a byte and one more. Every
      file is then delivered, with what it displaced at the path proposed for it, and the rest is as it was. */
  method ReplaceSucceeds(ns: Namespace, plan: seq<Entry>, limit: nat, capacity: nat, proposal: Proposal)
    returns (op: Operation, pumps: nat)
    requires Closed(ns) && Startable(Copy, ConflictReplace, plan, limit) && capacity > 0
    requires Suited(ns, plan, proposal)
    ensures op.Well() && op.backend.quiet && op.backend.start == FirstInstant(ns, Copy, ConflictReplace, plan)
    ensures SameJob(StartedRecord(Copy, ConflictReplace, plan), op.r) && Backed(proposal, op.r.entries)
    ensures InPhase(Some(ns), op.claim, true, op.backend.w, op.r, false, op.stream, Copied)
    ensures forall j :: 0 <= j < |plan| ==> Replaced(ns, op.backend.w.ns, plan, j, proposal)
    ensures forall p :: Elsewhere(plan, proposal, p) ==> At(op.backend.w.ns, p) == At(ns, p)
    ensures pumps <= 2 * |plan| + FileBytes(plan, |plan|) + 1
  {
    hide Sound, InPhase, Startable, SameTasks, Suited, StartedRecord, Left, Able, Harmless, Recover, Backed,
      KeepsBacked;
    op := Begin(ns, ConflictReplace, plan, limit, capacity, true, true, proposal);
    StartLeft(op, ns, ConflictReplace, plan, limit);
    StartedBacked(proposal, ConflictReplace, plan, limit);
    var phase := Going;
    pumps := 0;
    while phase.Going?
      invariant op.Well() && SameJob(StartedRecord(Copy, ConflictReplace, plan), op.r)
      invariant fresh(op) && fresh(op.backend) && op.backend.quiet && op.backend.reliable
      invariant op.backend.start == FirstInstant(ns, Copy, ConflictReplace, plan) && op.backend.proposal == proposal
      invariant op.capacity > 0 && !op.cancelRequested && (phase.Going? || phase.Copied?)
      invariant Backed(proposal, op.r.entries)
      invariant InPhase(Some(ns), op.claim, true, op.backend.w, op.r, op.fileOpen, op.stream, phase)
      invariant phase.Going? ==>
        pumps + Left(op.r, op.fileOpen, op.stream) <= 2 * |plan| + FileBytes(plan, |plan|)
      invariant pumps <= 2 * |plan| + FileBytes(plan, |plan|) + 1
      decreases phase.Going?, Left(op.r, op.fileOpen, op.stream)
    {
      ReplacingIsAble(op, ns, plan, limit);
      ghost var r0 := op.r;
      phase := Pump(op, phase, Some(ns));
      SameJobThrough(StartedRecord(Copy, ConflictReplace, plan), r0, op.r);
      BackedOn(proposal, r0.entries, op.r.entries);
      pumps := pumps + 1;
    }
    CopiedIsClosed(Some(ns), op.claim, op.backend.w, op.r, op.fileOpen, op.stream);
    AllReplaced(op, ns, plan, limit);
  }
}
