/** The window table, its shared-memory buffers and the bookkeeping of completions: which surface or
    queued job owns which handle, and which finished jobs are reported to whom. */
module GuiRuntime {
  import opened Common
  import opened CompositorJobs

  const MAX_SURFACES := 32
  const QUEUE_CAPACITY := 32
  const COMPLETION_CAPACITY := 64

  datatype Status =
    | Ok | Busy | IoError | InvalidHandle | InvalidArgument | Corrupt | NotSupported
    | AccessDenied | WouldBlock | VersionMismatch

  /** The two shared-memory handles of a surface, or those a resize job still has to give back; a
      negative number is no handle. */
  datatype Buffers = Buffers(first: int, second: int)

  const NO_BUFFERS := Buffers(-1, -1)

  datatype Surface = Surface(
    active: bool, generation: nat, callback: bool, buffers: Buffers,
    acquired: bool, framePending: bool, resizePending: bool, readbackPending: bool)

  /** Leased, presenting or resizing. */
  predicate Engaged(s: Surface) { s.acquired || s.framePending || s.resizePending }

  const NO_SURFACE := Surface(false, 0, false, NO_BUFFERS, false, false, false, false)

  datatype Job = Job(kind: Kind, handle: nat, cookie: nat, kept: Buffers)

  datatype Completion = Completion(kind: Kind, handle: nat, cookie: nat, status: Status)

  // Window handles.

  function Token(index: nat, generation: nat): nat { generation * MAX_SURFACES + index + 1 }

  /** The slot and generation a handle names. */
  function Decode(handle: nat): Option<(nat, nat)> {
    var slot, generation := handle % MAX_SURFACES, handle / MAX_SURFACES;
    if slot == 0 || generation == 0 || generation > U32_MAX then None else Some((slot - 1, generation))
  }

  /** A token names its own slot exactly when that is not the last of the table, whose slot bits
      wrap to zero. */
  lemma TokenRoundTrip(index: nat, generation: nat)
    requires index < MAX_SURFACES && 1 <= generation <= U32_MAX
    ensures Decode(Token(index, generation)) == Some((index, generation)) <==> index != MAX_SURFACES - 1
    ensures index == MAX_SURFACES - 1 ==> Decode(Token(index, generation)) == None
  {
    if index == MAX_SURFACES - 1 {
      assert Token(index, generation) == (generation + 1) * MAX_SURFACES;
      assert Token(index, generation) % MAX_SURFACES == 0;
    } else {
      assert Token(index, generation) % MAX_SURFACES == index + 1;
      assert Token(index, generation) / MAX_SURFACES == generation;
    }
  }

  /** The active surface a handle stands for. */
  function Find(surfaces: seq<Surface>, handle: nat): (r: Option<nat>)
    requires |surfaces| == MAX_SURFACES
    ensures r.Some? ==> r.value < MAX_SURFACES && surfaces[r.value].active
  {
    var d := Decode(handle);
    if d.Some? && surfaces[d.value.0].active && surfaces[d.value.0].generation == d.value.1
    then Some(d.value.0)
    else None
  }

  // Who owns which shared-memory handle.

  function One(h: int): multiset<int> { if h >= 0 then multiset{h} else multiset{} }

  function Owned(b: Buffers): multiset<int> { One(b.first) + One(b.second) }

  function SurfaceOwned(ss: seq<Surface>): multiset<int> {
    if ss == [] then multiset{} else SurfaceOwned(ss[..|ss| - 1]) + Owned(ss[|ss| - 1].buffers)
  }

  function JobOwned(js: seq<Job>): multiset<int> {
    if js == [] then multiset{} else JobOwned(js[..|js| - 1]) + Owned(js[|js| - 1].kept)
  }

  lemma Shuffle(a: multiset<int>, b: multiset<int>, l: multiset<int>, x: multiset<int>, y: multiset<int>)
    requires a + x == b + y
    ensures a + l + x == b + l + y
  {
    assert a + l + x == a + x + l == b + y + l == b + l + y;
  }

  lemma {:induction false} SurfaceUpdate(ss: seq<Surface>, i: nat, s: Surface)
    requires i < |ss|
    ensures SurfaceOwned(ss[i := s]) + Owned(ss[i].buffers) == SurfaceOwned(ss) + Owned(s.buffers)
  {
    hide Owned;
    var n := |ss| - 1;
    var front, last := SurfaceOwned(ss[..n]), Owned(ss[n].buffers);
    if i == n {
      assert ss[i := s][..n] == ss[..n];
      assert front + Owned(s.buffers) + last == front + last + Owned(s.buffers);
    } else {
      SurfaceUpdate(ss[..n], i, s);
      assert ss[i := s][..n] == ss[..n][i := s];
      Shuffle(SurfaceOwned(ss[..n][i := s]), front, last, Owned(ss[i].buffers), Owned(s.buffers));
    }
  }

  lemma {:induction false} SurfaceMember(ss: seq<Surface>, i: nat)
    requires i < |ss|
    ensures Owned(ss[i].buffers) <= SurfaceOwned(ss)
  {
    var n := |ss| - 1;
    if i != n { SurfaceMember(ss[..n], i); }
  }

  lemma JobPush(js: seq<Job>, j: Job)
    ensures JobOwned(js + [j]) == JobOwned(js) + Owned(j.kept)
  {
    assert (js + [j])[..|js|] == js;
  }

  lemma {:induction false} JobPop(js: seq<Job>)
    requires js != []
    ensures JobOwned(js) == Owned(js[0].kept) + JobOwned(js[1..])
  {
    hide Owned;
    var n := |js| - 1;
    var first, last := Owned(js[0].kept), Owned(js[n].kept);
    if n == 0 {
      assert js[..0] == [] && js[1..] == [];
      assert JobOwned(js) == multiset{} + first == first + multiset{};
    } else {
      JobPop(js[..n]);
      assert js[..n][1..] == js[1..][..n - 1];
      assert js[1..][n - 1] == js[n];
      assert first + JobOwned(js[1..][..n - 1]) + last == first + (JobOwned(js[1..][..n - 1]) + last);
    }
  }

  /** Every live handle has exactly one owner, and every owned handle is live. */
  ghost predicate Books(surfaces: seq<Surface>, jobs: seq<Job>, live: set<int>) {
    SurfaceOwned(surfaces) + JobOwned(jobs) == multiset(live)
  }

  /** Only active surfaces hold buffers, and only resize jobs keep any. */
  predicate Proper(surfaces: seq<Surface>, jobs: seq<Job>) {
    && |surfaces| == MAX_SURFACES && |jobs| <= QUEUE_CAPACITY
    && (forall i :: 0 <= i < |surfaces| && !surfaces[i].active ==> surfaces[i].buffers == NO_BUFFERS)
    && (forall k :: 0 <= k < |jobs| && jobs[k].kind != Resize ==> jobs[k].kept == NO_BUFFERS)
  }

  datatype Owner = InSurface(index: nat) | InJob(position: nat)

  predicate Has(b: Buffers, h: int) { h >= 0 && (b.first == h || b.second == h) }

  predicate Owns(ss: seq<Surface>, js: seq<Job>, o: Owner, h: int) {
    match o
    case InSurface(i) => i < |ss| && Has(ss[i].buffers, h)
    case InJob(k) => k < |js| && Has(js[k].kept, h)
  }

  lemma OwnedHas(b: Buffers, h: int)
    ensures Owned(b)[h] > 0 <==> Has(b, h)
  {
  }

  lemma SurfaceSplit(ss: seq<Surface>, h: int)
    requires ss != []
    ensures SurfaceOwned(ss)[h] == SurfaceOwned(ss[..|ss| - 1])[h] + Owned(ss[|ss| - 1].buffers)[h]
  {
    hide Owned;
  }

  lemma JobSplit(js: seq<Job>, h: int)
    requires js != []
    ensures JobOwned(js)[h] == JobOwned(js[..|js| - 1])[h] + Owned(js[|js| - 1].kept)[h]
  {
    hide Owned;
  }

  lemma {:induction false} SurfaceHolder(ss: seq<Surface>, h: int) returns (i: nat)
    requires ss != [] && SurfaceOwned(ss)[h] > 0
    ensures i < |ss| && Has(ss[i].buffers, h)
  {
    hide Owned, Has;
    var n := |ss| - 1;
    SurfaceSplit(ss, h);
    OwnedHas(ss[n].buffers, h);
    if Owned(ss[n].buffers)[h] > 0 { i := n; } else { i := SurfaceHolder(ss[..n], h); }
  }

  lemma {:induction false} JobHolder(js: seq<Job>, h: int) returns (k: nat)
    requires js != [] && JobOwned(js)[h] > 0
    ensures k < |js| && Has(js[k].kept, h)
  {
    hide Owned, Has;
    var n := |js| - 1;
    JobSplit(js, h);
    OwnedHas(js[n].kept, h);
    if Owned(js[n].kept)[h] > 0 { k := n; } else { k := JobHolder(js[..n], h); }
  }

  lemma {:induction false} SurfaceShare(ss: seq<Surface>, i: nat, h: int)
    requires i < |ss| && Has(ss[i].buffers, h)
    ensures SurfaceOwned(ss)[h] > 0
    ensures forall k :: 0 <= k < |ss| && k != i && Has(ss[k].buffers, h) ==> SurfaceOwned(ss)[h] > 1
  {
    hide Owned, SurfaceOwned, Has;
    var n := |ss| - 1;
    SurfaceSplit(ss, h);
    OwnedHas(ss[n].buffers, h);
    if i != n {
      SurfaceShare(ss[..n], i, h);
    } else {
      forall k | 0 <= k < n && Has(ss[k].buffers, h) ensures SurfaceOwned(ss)[h] > 1 {
        SurfaceShare(ss[..n], k, h);
      }
    }
  }

  lemma {:induction false} JobShare(js: seq<Job>, i: nat, h: int)
    requires i < |js| && Has(js[i].kept, h)
    ensures JobOwned(js)[h] > 0
    ensures forall k :: 0 <= k < |js| && k != i && Has(js[k].kept, h) ==> JobOwned(js)[h] > 1
  {
    hide Owned, JobOwned, Has;
    var n := |js| - 1;
    JobSplit(js, h);
    OwnedHas(js[n].kept, h);
    if i != n {
      JobShare(js[..n], i, h);
    } else {
      forall k | 0 <= k < n && Has(js[k].kept, h) ensures JobOwned(js)[h] > 1 {
        JobShare(js[..n], k, h);
      }
    }
  }

  lemma Share(ss: seq<Surface>, js: seq<Job>, o: Owner, h: int)
    requires Owns(ss, js, o, h)
    ensures (SurfaceOwned(ss) + JobOwned(js))[h] > 0
    ensures forall p: Owner :: p != o && Owns(ss, js, p, h) ==> (SurfaceOwned(ss) + JobOwned(js))[h] > 1
  {
    match o
    case InSurface(i) =>
      SurfaceShare(ss, i, h);
      forall p: Owner | p.InJob? && Owns(ss, js, p, h) ensures JobOwned(js)[h] > 0 { JobShare(js, p.position, h); }
    case InJob(k) =>
      JobShare(js, k, h);
      forall p: Owner | p.InSurface? && Owns(ss, js, p, h) ensures SurfaceOwned(ss)[h] > 0 {
        SurfaceShare(ss, p.index, h);
      }
  }

  /** A handle is live exactly when it has an owner; it has only one, an active surface or a queued
      resize job. */
  lemma ExactlyOneOwner(ss: seq<Surface>, js: seq<Job>, live: set<int>, h: int)
    requires Books(ss, js, live) && Proper(ss, js)
    ensures h in live <==> exists o: Owner :: Owns(ss, js, o, h)
    ensures forall o: Owner, p: Owner :: Owns(ss, js, o, h) && Owns(ss, js, p, h) ==> o == p
    ensures forall o: Owner :: Owns(ss, js, o, h) ==>
              match o case InSurface(i) => ss[i].active case InJob(k) => js[k].kind == Resize
  {
    assert multiset(live)[h] <= 1;
    if h in live {
      assert (SurfaceOwned(ss) + JobOwned(js))[h] == 1;
      if SurfaceOwned(ss)[h] > 0 {
        var i := SurfaceHolder(ss, h);
        assert Owns(ss, js, InSurface(i), h);
      } else {
        var k := JobHolder(js, h);
        assert Owns(ss, js, InJob(k), h);
      }
    }
    forall o: Owner | Owns(ss, js, o, h)
      ensures h in live && forall p: Owner :: Owns(ss, js, p, h) ==> o == p
    {
      Share(ss, js, o, h);
    }
  }

  /** When every window is closed and every job finished, nothing stays attached. */
  lemma NothingLeaks(ss: seq<Surface>, js: seq<Job>, live: set<int>)
    requires Books(ss, js, live) && Proper(ss, js) && js == []
    requires forall i :: 0 <= i < |ss| ==> !ss[i].active
    ensures live == {}
  {
    forall h ensures h !in live {
      ExactlyOneOwner(ss, js, live, h);
      assert !exists o: Owner :: Owns(ss, js, o, h);
    }
  }

  // Completions.

  function Readbacks(js: seq<Job>): nat {
    if js == [] then 0 else Readbacks(js[..|js| - 1]) + if js[|js| - 1].kind == Readback then 1 else 0
  }

  lemma ReadbackPush(js: seq<Job>, j: Job)
    ensures Readbacks(js + [j]) == Readbacks(js) + if j.kind == Readback then 1 else 0
  {
    assert (js + [j])[..|js|] == js;
  }

  lemma {:induction false} ReadbackPop(js: seq<Job>)
    requires js != []
    ensures Readbacks(js) == (if js[0].kind == Readback then 1 else 0) + Readbacks(js[1..])
  {
    var n := |js| - 1;
    if n == 0 {
      assert js[..0] == [] && js[1..] == [];
    } else {
      ReadbackPop(js[..n]);
      assert js[..n][1..] == js[1..][..n - 1];
    }
  }

  lemma {:induction false} FewReadbacks(js: seq<Job>)
    ensures Readbacks(js) <= |js|
  {
    if js != [] { FewReadbacks(js[..|js| - 1]); }
  }

  /** Room is kept for the completion of every queued job. */
  predicate Roomy(jobs: seq<Job>, completions: seq<Completion>, reservations: nat) {
    |completions| + |jobs| <= COMPLETION_CAPACITY && reservations == Readbacks(jobs)
  }

  /** Somebody waits for the completion. */
  predicate Heard(surfaces: seq<Surface>, handle: nat)
    requires |surfaces| == MAX_SURFACES
  {
    var i := Find(surfaces, handle);
    i.Some? && surfaces[i.value].callback
  }

  /** What a finished job reports. */
  function Report(surfaces: seq<Surface>, job: Job, status: Status): seq<Completion>
    requires |surfaces| == MAX_SURFACES
  {
    if job.kind != Input && Heard(surfaces, job.handle)
    then [Completion(job.kind, job.handle, job.cookie, status)]
    else []
  }

  function Reports(surfaces: seq<Surface>, jobs: seq<Job>, status: Status): seq<Completion>
    requires |surfaces| == MAX_SURFACES
  {
    if jobs == [] then [] else Report(surfaces, jobs[0], status) + Reports(surfaces, jobs[1..], status)
  }

  /** Nobody's identity or callback changed. */
  predicate SameListeners(before: seq<Surface>, after: seq<Surface>) {
    && |before| == |after|
    && forall i :: 0 <= i < |before| ==>
         && after[i].active == before[i].active && after[i].generation == before[i].generation
         && after[i].callback == before[i].callback
  }

  /** Nor did anybody's buffers. */
  predicate OnlyFlags(before: seq<Surface>, after: seq<Surface>) {
    SameListeners(before, after) && forall i :: 0 <= i < |before| ==> after[i].buffers == before[i].buffers
  }

  lemma NobodyChanged(ss: seq<Surface>)
    ensures OnlyFlags(ss, ss)
  {
  }

  lemma StillSame(a: seq<Surface>, b: seq<Surface>, c: seq<Surface>)
    requires OnlyFlags(a, b) && OnlyFlags(b, c)
    ensures OnlyFlags(a, c) && |c| == |a|
  {
  }

  lemma SameReport(before: seq<Surface>, after: seq<Surface>, job: Job, status: Status)
    requires |before| == MAX_SURFACES && OnlyFlags(before, after)
    ensures Report(before, job, status) == Report(after, job, status)
  {
  }

  // What the table and the queue may do to the books.

  /** A surface gives its buffers up to be detached. */
  lemma BooksGiveUp(ss: seq<Surface>, js: seq<Job>, live: set<int>, i: nat, s: Surface, left: set<int>)
    requires Books(ss, js, live) && i < |ss| && s.buffers == NO_BUFFERS
    requires multiset(live) == multiset(left) + Owned(ss[i].buffers)
    ensures Books(ss[i := s], js, left)
  {
    SurfaceUpdate(ss, i, s);
    var given := Owned(ss[i].buffers);
    assert SurfaceOwned(ss[i := s]) + given == SurfaceOwned(ss);
    assert SurfaceOwned(ss[i := s]) + JobOwned(js) + given == multiset(left) + given;
    Cancel(SurfaceOwned(ss[i := s]) + JobOwned(js), multiset(left), given);
  }

  lemma Cancel(a: multiset<int>, b: multiset<int>, c: multiset<int>)
    requires a + c == b + c
    ensures a == b
  {
    assert a == a + c - c == b + c - c == b;
  }

  /** A surface without buffers takes new ones. */
  lemma BooksTake(ss: seq<Surface>, js: seq<Job>, live: set<int>, i: nat, s: Surface, more: set<int>)
    requires Books(ss, js, live) && i < |ss| && ss[i].buffers == NO_BUFFERS
    requires multiset(more) == multiset(live) + Owned(s.buffers)
    ensures Books(ss[i := s], js, more)
  {
    SurfaceUpdate(ss, i, s);
    assert SurfaceOwned(ss[i := s]) == SurfaceOwned(ss) + Owned(s.buffers);
  }

  /** A surface takes new buffers and a job keeps the old ones. */
  lemma BooksSwap(ss: seq<Surface>, js: seq<Job>, live: set<int>, i: nat, s: Surface, j: Job, more: set<int>)
    requires Books(ss, js, live) && i < |ss| && j.kept == ss[i].buffers
    requires multiset(more) == multiset(live) + Owned(s.buffers)
    ensures Books(ss[i := s], js + [j], more)
  {
    hide Owned;
    SurfaceUpdate(ss, i, s);
    JobPush(js, j);
    var a, b, before, after := SurfaceOwned(ss[i := s]), SurfaceOwned(ss), Owned(ss[i].buffers), Owned(s.buffers);
    assert a + (JobOwned(js) + before) == a + before + JobOwned(js) == b + after + JobOwned(js) ==
      b + JobOwned(js) + after;
  }

  /** Flags may change freely. */
  lemma BooksFlags(ss: seq<Surface>, js: seq<Job>, live: set<int>, i: nat, s: Surface)
    requires Books(ss, js, live) && i < |ss| && s.buffers == ss[i].buffers
    ensures Books(ss[i := s], js, live)
  {
    hide Owned;
    SurfaceUpdate(ss, i, s);
    Cancel(SurfaceOwned(ss[i := s]), SurfaceOwned(ss), Owned(s.buffers));
  }

  lemma BooksPush(ss: seq<Surface>, js: seq<Job>, live: set<int>, j: Job)
    requires Books(ss, js, live) && j.kept == NO_BUFFERS
    ensures Books(ss, js + [j], live)
  {
    JobPush(js, j);
  }

  lemma BooksPop(ss: seq<Surface>, js: seq<Job>, live: set<int>, left: set<int>)
    requires Books(ss, js, live) && js != []
    requires multiset(live) == multiset(left) + Owned(js[0].kept)
    ensures Books(ss, js[1..], left)
  {
    hide Owned;
    JobPop(js);
    var given := Owned(js[0].kept);
    assert SurfaceOwned(ss) + (given + JobOwned(js[1..])) == SurfaceOwned(ss) + JobOwned(js[1..]) + given;
    Cancel(SurfaceOwned(ss) + JobOwned(js[1..]), multiset(left), given);
  }

  /** What a surface or the oldest job owns is live. */
  lemma OwnedIsLive(ss: seq<Surface>, js: seq<Job>, live: set<int>)
    requires Books(ss, js, live)
    ensures forall i :: 0 <= i < |ss| ==> Owned(ss[i].buffers) <= multiset(live)
    ensures js != [] ==> Owned(js[0].kept) <= multiset(live)
  {
    hide Owned;
    forall i | 0 <= i < |ss| ensures Owned(ss[i].buffers) <= multiset(live) {
      SurfaceMember(ss, i);
    }
    if js != [] { JobPop(js); }
  }

  /** The window table after a job's completion has cleared the flags it held. */
  function Cleared(ss: seq<Surface>, job: Job): (r: seq<Surface>)
    requires |ss| == MAX_SURFACES
    ensures OnlyFlags(ss, r)
  {
    var i := Find(ss, job.handle);
    if i.None? then ss
    else
      var s := ss[i.value];
      match job.kind
      case Frame => ss[i.value := s.(framePending := false)]
      case GpuFrame => ss[i.value := s.(framePending := false)]
      case Readback => ss[i.value := s.(framePending := false, readbackPending := false)]
      case Resize => ss[i.value := s.(resizePending := false)]
      case _ => ss
  }

  /** The same for several jobs, the oldest first. */
  function ClearedAll(ss: seq<Surface>, jobs: seq<Job>): (r: seq<Surface>)
    requires |ss| == MAX_SURFACES
    ensures OnlyFlags(ss, r)
    decreases |jobs|
  {
    if jobs == [] then ss else ClearedAll(Cleared(ss, jobs[0]), jobs[1..])
  }

  /** The window table after a job was queued. */
  function Flagged(ss: seq<Surface>, job: Job): (r: seq<Surface>)
    requires |ss| == MAX_SURFACES
    ensures OnlyFlags(ss, r)
  {
    var i := Find(ss, job.handle);
    if i.None? then ss
    else
      var s := ss[i.value];
      match job.kind
      case Frame => ss[i.value := s.(framePending := true)]
      case GpuFrame => ss[i.value := s.(framePending := true)]
      case Readback => ss[i.value := s.(framePending := true, readbackPending := true)]
      case _ => ss
  }

  /** A readback that went well but whose answer is malformed is reported as corrupt. */
  function Final(job: Job, status: Status, intact: bool): Status {
    if job.kind == Readback && status == Ok && !intact then Corrupt else status
  }

  lemma ClearedBooks(ss: seq<Surface>, js: seq<Job>, live: set<int>, job: Job)
    requires |ss| == MAX_SURFACES && Books(ss, js, live)
    ensures Books(Cleared(ss, job), js, live)
  {
    var i := Find(ss, job.handle);
    if i.Some? && Cleared(ss, job) != ss {
      BooksFlags(ss, js, live, i.value, Cleared(ss, job)[i.value]);
      assert Cleared(ss, job) == ss[i.value := Cleared(ss, job)[i.value]];
    }
  }

  lemma {:induction false} NoneYet(ss: seq<Surface>)
    requires forall i :: 0 <= i < |ss| ==> ss[i] == NO_SURFACE
    ensures SurfaceOwned(ss) == multiset{}
  {
    if ss != [] { NoneYet(ss[..|ss| - 1]); }
  }

  /** Every active surface carries the generation last given to its slot. */
  predicate Named(surfaces: seq<Surface>, generations: seq<nat>) {
    && |generations| == |surfaces| == MAX_SURFACES
    && forall i :: 0 <= i < MAX_SURFACES ==>
         generations[i] <= U32_MAX && (surfaces[i].active ==> surfaces[i].generation == generations[i] != 0)
  }

  /** Everything the runtime remembers. */
  datatype State = State(
    live: set<int>, surfaces: seq<Surface>, generations: seq<nat>, jobs: seq<Job>, completions: seq<Completion>,
    reservations: nat, connected: bool)

  const EMPTY := State({}, seq(MAX_SURFACES, _ => NO_SURFACE), seq(MAX_SURFACES, _ => 0), [], [], 0, true)

  /** What every call keeps. */
  ghost predicate Sound(s: State) {
    && Named(s.surfaces, s.generations) && Proper(s.surfaces, s.jobs) && Books(s.surfaces, s.jobs, s.live)
    && Roomy(s.jobs, s.completions, s.reservations)
  }

  /** Whether the queue takes one more job. */
  function RoomIn(s: State): Status {
    if !s.connected then IoError
    else if |s.jobs| >= QUEUE_CAPACITY || |s.completions| + |s.jobs| >= COMPLETION_CAPACITY then Busy
    else Ok
  }

  class Runtime {
    /** The shared-memory segments this process has attached. */
    var live: set<int>
    var surfaces: seq<Surface>
    var generations: seq<nat>
    var jobs: seq<Job>
    var completions: seq<Completion>
    var reservations: nat
    var connected: bool

    function Now(): State
      reads this
    {
      State(live, surfaces, generations, jobs, completions, reservations, connected)
    }

    ghost predicate Valid()
      reads this
    {
      Sound(Now())
    }

    constructor ()
      ensures Valid() && Now() == EMPTY
    {
      live, jobs, completions, reservations, connected := {}, [], [], 0, true;
      surfaces := seq(MAX_SURFACES, _ => NO_SURFACE);
      generations := seq(MAX_SURFACES, _ => 0);
      new;
      NoneYet(surfaces);
    }

    /** Detaches a segment, which must be attached. */
    method Detach(h: int)
      requires h in live
      modifies this`live
      ensures live == old(live) - {h}
    {
      live := live - {h};
    }

    /** Detaches each handle once. */
    method Release(b: Buffers)
      requires Owned(b) <= multiset(live)
      modifies this`live
      ensures multiset(old(live)) == multiset(live) + Owned(b)
    {
      assert b.first >= 0 ==> b.first in Owned(b);
      assert b.second >= 0 ==> b.second in Owned(b);
      assert b.first >= 0 && b.first == b.second ==> Owned(b)[b.first] == 2;
      if b.first >= 0 { Detach(b.first); }
      if b.second >= 0 { Detach(b.second); }
    }

    /** Creates and maps one segment, if there is one to be had, or nothing. */
    method Segment(available: bool) returns (h: int)
      modifies this`live
      ensures h >= 0 <==> available
      ensures h >= 0 ==> h !in old(live) && live == old(live) + {h}
      ensures h < 0 ==> live == old(live)
    {
      FreeHandle(live);
      h :| h >= 0 && h !in live;
      var created: bool := *;
      if !available && !created { return -1; }
      live := live + {h};
      if !available {
        Detach(h);
        h := -1;
      }
    }

    /** Two new segments, or none; `memory` is how many there are to be had. */
    method Allocate(memory: nat) returns (b: Option<Buffers>)
      modifies this`live
      ensures b.Some? <==> memory >= 2
      ensures b.Some? ==> multiset(live) == multiset(old(live)) + Owned(b.value)
      ensures b.Some? ==> b.value.first >= 0 && b.value.second >= 0
      ensures b.None? ==> live == old(live)
    {
      var first := Segment(memory >= 1);
      if first < 0 { return None; }
      var second := Segment(memory >= 2);
      if second < 0 {
        Detach(first);
        return None;
      }
      b := Some(Buffers(first, second));
    }

    function Room(): Status
      reads this
    {
      RoomIn(Now())
    }

    /** Adds a job when the queue has room and so will its completion. */
    method Enqueue(j: Job) returns (result: Status)
      requires |completions| + |jobs| <= COMPLETION_CAPACITY && |jobs| <= QUEUE_CAPACITY
      modifies this`jobs
      ensures result == old(Room())
      ensures jobs == if result == Ok then old(jobs) + [j] else old(jobs)
    {
      if !connected { return IoError; }
      if |jobs| >= QUEUE_CAPACITY || |completions| + |jobs| >= COMPLETION_CAPACITY { return Busy; }
      jobs := jobs + [j];
      result := Ok;
    }

    /** Reports a finished job that has left the queue. There is always room. */
    method QueueCompletion(job: Job, status: Status)
      requires |surfaces| == MAX_SURFACES && job.kind != Input && |completions| + |jobs| < COMPLETION_CAPACITY
      requires reservations == Readbacks(jobs) + if job.kind == Readback then 1 else 0
      modifies this`completions, this`reservations
      ensures Roomy(jobs, completions, reservations)
      ensures completions == old(completions) + Report(surfaces, job, status)
    {
      FewReadbacks(jobs);
      var i := Find(surfaces, job.handle);
      if job.kind == Readback && reservations != 0 { reservations := reservations - 1; }
      if i.None? || !surfaces[i.value].callback || |completions| >= COMPLETION_CAPACITY ||
         (job.kind != Readback && |completions| + reservations >= COMPLETION_CAPACITY)
      {
        return;
      }
      completions := completions + [Completion(job.kind, job.handle, job.cookie, status)];
    }

    /** A finished job takes effect: its flags are cleared, a resize's old buffers are detached, and
        its completion is reported. */
    method ApplyCompletion(job: Job, status: Status, intact: bool)
      requires Proper(surfaces, jobs) && Named(surfaces, generations)
      requires Books(surfaces, [job] + jobs, live) && (job.kind != Resize ==> job.kept == NO_BUFFERS)
      requires |completions| + |jobs| < COMPLETION_CAPACITY
      requires reservations == Readbacks(jobs) + if job.kind == Readback then 1 else 0
      modifies this`surfaces, this`live, this`completions, this`reservations
      ensures Valid() && surfaces == Cleared(old(surfaces), job)
      ensures completions == old(completions) + Report(old(surfaces), job, Final(job, status, intact))
    {
      hide Books, Owned, Find, Report, Readbacks;
      OwnedIsLive(surfaces, [job] + jobs, live);
      NoneOwned();
      ghost var before := live;
      if job.kind == Resize { Release(job.kept); }
      BooksPop(surfaces, [job] + jobs, before, live);
      assert ([job] + jobs)[1..] == jobs;
      ClearedBooks(surfaces, jobs, live, job);
      SameReport(surfaces, Cleared(surfaces, job), job, Final(job, status, intact));
      surfaces := Cleared(surfaces, job);
      if job.kind != Input {
        QueueCompletion(job, Final(job, status, intact));
      } else {
        NoReport(old(surfaces), job, status);
      }
    }

    /** The oldest job is answered. */
    method CompleteHead(status: Status, intact: bool)
      requires Valid() && jobs != []
      modifies this`jobs, this`surfaces, this`live, this`completions, this`reservations
      ensures Valid() && jobs == old(jobs)[1..] && surfaces == Cleared(old(surfaces), old(jobs)[0])
      ensures completions == old(completions) + Report(old(surfaces), old(jobs)[0], Final(old(jobs)[0], status, intact))
    {
      hide Books, Report, Readbacks;
      var job := jobs[0];
      ReadbackPop(jobs);
      assert jobs == [job] + jobs[1..];
      jobs := jobs[1..];
      ApplyCompletion(job, status, intact);
    }

    /** Every queued job is completed as failed, in order, and every one of them reported. */
    method AbortAll()
      requires Valid()
      modifies this`jobs, this`surfaces, this`live, this`completions, this`reservations
      ensures Valid() && jobs == [] && |old(surfaces)| == MAX_SURFACES
      ensures surfaces == ClearedAll(old(surfaces), old(jobs))
      ensures completions == old(completions) + Reports(old(surfaces), old(jobs), IoError)
    {
      hide Books, Proper, Roomy, Report, OnlyFlags, Cleared;
      NobodyChanged(surfaces);
      while jobs != []
        invariant Valid() && |surfaces| == MAX_SURFACES && OnlyFlags(old(surfaces), surfaces)
        invariant ClearedAll(surfaces, jobs) == ClearedAll(old(surfaces), old(jobs))
        invariant completions + Reports(old(surfaces), jobs, IoError) ==
          old(completions) + Reports(old(surfaces), old(jobs), IoError)
        decreases |jobs|
      {
        ghost var job, rest := jobs[0], Reports(old(surfaces), jobs[1..], IoError);
        ghost var before := surfaces;
        SameReport(old(surfaces), surfaces, job, IoError);
        assert completions + (Report(surfaces, job, IoError) + rest) ==
          completions + Report(surfaces, job, IoError) + rest;
        CompleteHead(IoError, true);
        StillSame(old(surfaces), before, surfaces);
      }
      assert completions + [] == completions;
    }

    method CloseConnection()
      requires Valid()
      modifies this`connected, this`jobs, this`surfaces, this`live, this`completions, this`reservations
      ensures Valid() && !connected && jobs == [] && |old(surfaces)| == MAX_SURFACES
      ensures surfaces == ClearedAll(old(surfaces), old(jobs))
      ensures completions == old(completions) + Reports(old(surfaces), old(jobs), IoError)
    {
      connected := false;
      AbortAll();
    }

    /** A job without buffers of its own: a present, a query, an input poll or a plain setter. */
    method Submit(handle: nat, kind: Kind, cookie: nat) returns (result: Status)
      requires Valid() && kind != Resize && kind != Readback
      modifies this`jobs, this`surfaces
      ensures Valid() && OnlyFlags(old(surfaces), surfaces)
      ensures var i := Find(old(surfaces), handle);
              result == if i.None? then (if kind == GpuFrame then NotSupported else InvalidHandle)
                        else if kind == Query && !old(surfaces)[i.value].callback then InvalidArgument
                        else if kind == Frame && Engaged(old(surfaces)[i.value]) then Busy
                        else if kind == GpuFrame && Engaged(old(surfaces)[i.value]) then InvalidArgument
                        else old(Room())
      ensures result == Ok ==> jobs == old(jobs) + [Job(kind, handle, cookie, NO_BUFFERS)]
      ensures result == Ok ==> surfaces == Flagged(old(surfaces), Job(kind, handle, cookie, NO_BUFFERS))
      ensures result != Ok ==> unchanged(this)
    {
      hide Books, Readbacks;
      var i := Find(surfaces, handle);
      if i.None? { return if kind == GpuFrame then NotSupported else InvalidHandle; }
      var s := surfaces[i.value];
      if kind == Query && !s.callback { return InvalidArgument; }
      if kind == Frame && Engaged(s) { return Busy; }
      if kind == GpuFrame && Engaged(s) { return InvalidArgument; }
      var j := Job(kind, handle, cookie, NO_BUFFERS);
      BooksPush(surfaces, jobs, live, j);
      ReadbackPush(jobs, j);
      result := Enqueue(j);
      if result == Ok && (kind == Frame || kind == GpuFrame) {
        BooksFlags(surfaces, jobs, live, i.value, s.(framePending := true));
        surfaces := surfaces[i.value := s.(framePending := true)];
      }
    }

    /** A readback also reserves room for its completion. */
    method SubmitReadback(handle: nat, cookie: nat) returns (result: Status)
      requires Valid()
      modifies this`jobs, this`surfaces, this`reservations
      ensures Valid() && OnlyFlags(old(surfaces), surfaces)
      ensures var i := Find(old(surfaces), handle);
              result == if i.None? || !old(surfaces)[i.value].callback then InvalidArgument
                        else if Engaged(old(surfaces)[i.value]) then Busy
                        else if |completions| + old(reservations) >= COMPLETION_CAPACITY then Busy
                        else old(Room())
      ensures result == Ok ==> jobs == old(jobs) + [Job(Readback, handle, cookie, NO_BUFFERS)]
      ensures result == Ok ==> surfaces == Flagged(old(surfaces), Job(Readback, handle, cookie, NO_BUFFERS))
      ensures result == Ok ==> reservations == old(reservations) + 1 && Heard(surfaces, handle)
      ensures result != Ok ==> unchanged(this)
    {
      hide Books, Readbacks;
      var i := Find(surfaces, handle);
      if i.None? { return InvalidArgument; }
      var s := surfaces[i.value];
      if !s.callback { return InvalidArgument; }
      if Engaged(s) { return Busy; }
      if |completions| + reservations >= COMPLETION_CAPACITY { return Busy; }
      var j := Job(Readback, handle, cookie, NO_BUFFERS);
      BooksPush(surfaces, jobs, live, j);
      ReadbackPush(jobs, j);
      result := Enqueue(j);
      if result == Ok {
        reservations := reservations + 1;
        BooksFlags(surfaces, jobs, live, i.value, s.(framePending := true, readbackPending := true));
        surfaces := surfaces[i.value := s.(framePending := true, readbackPending := true)];
      }
    }

    /** The surface goes on with new buffers while the queued job keeps the old ones; when anything
        fails, nothing stays allocated. */
    method ResizeSurface(handle: nat, memory: nat) returns (result: Status)
      requires Valid()
      modifies this`jobs, this`surfaces, this`live
      ensures Valid() && ResizeTried(old(Now()), handle, memory, result, Now())
      ensures result != Ok ==> unchanged(this)
    {
      hide Books, Owned, Readbacks;
      var i := Find(surfaces, handle);
      if i.None? { return InvalidHandle; }
      var s := surfaces[i.value];
      if s.resizePending || s.acquired || s.readbackPending { return Busy; }
      var b := Allocate(memory);
      if b.None? { return IoError; }
      var j := Job(Resize, handle, 0, s.buffers);
      ghost var more := live;
      ReadbackPush(jobs, j);
      result := Enqueue(j);
      if result != Ok {
        Release(b.value);
        Undone(old(live), live, Owned(b.value));
        return;
      }
      var t := s.(buffers := b.value, resizePending := true, acquired := false);
      BooksSwap(surfaces, old(jobs), old(live), i.value, t, j, live);
      Grows(old(live), live, b.value);
      surfaces := surfaces[i.value := t];
    }

    /** Gives a surface's buffers and its slot back. */
    method DestroyLocal(i: nat)
      requires Valid() && i < MAX_SURFACES
      modifies this`surfaces, this`live
      ensures Valid() && surfaces == old(surfaces)[i := NO_SURFACE]
      ensures multiset(old(live)) == multiset(live) + Owned(old(surfaces)[i].buffers)
    {
      hide Books, Owned;
      OwnedIsLive(surfaces, jobs, live);
      ghost var before := live;
      Release(surfaces[i].buffers);
      BooksGiveUp(surfaces, jobs, before, i, NO_SURFACE, live);
      surfaces := surfaces[i := NO_SURFACE];
    }

    /** Closing frees the slot and its buffers at once; a resize still queued gives back its own. */
    method CloseAsync(handle: nat) returns (result: Status)
      requires Valid()
      modifies this`jobs, this`surfaces, this`live
      ensures Valid()
      ensures var i := Find(old(surfaces), handle);
              if i.None? then result == InvalidHandle
              else if old(surfaces)[i.value].readbackPending || old(surfaces)[i.value].acquired then result == Busy
              else result == old(Room()) && (result == Ok ==>
                && surfaces == old(surfaces)[i.value := NO_SURFACE]
                && jobs == old(jobs) + [Job(Plain, handle, 0, NO_BUFFERS)]
                && multiset(old(live)) == multiset(live) + Owned(old(surfaces)[i.value].buffers))
      ensures result == IoError ==> Find(old(surfaces), handle).Some?
      ensures result != Ok ==> unchanged(this)
    {
      hide Books, Owned, Readbacks;
      var i := Find(surfaces, handle);
      if i.None? { return InvalidHandle; }
      var s := surfaces[i.value];
      if s.readbackPending || s.acquired { return Busy; }
      var j := Job(Plain, handle, 0, NO_BUFFERS);
      BooksPush(surfaces, jobs, live, j);
      ReadbackPush(jobs, j);
      result := Enqueue(j);
      if result == Ok { DestroyLocal(i.value); }
    }

    /** Closes even without a connection, unless the surface is in use or the queue is full. */
    method Close(handle: nat) returns (closed: bool)
      requires Valid()
      modifies this
      ensures Valid()
      ensures var i := Find(old(surfaces), handle);
              closed <==>
                && i.Some? && !old(surfaces)[i.value].readbackPending && !old(surfaces)[i.value].acquired
                && old(Room()) != Busy
      ensures closed ==> Closed(old(Now()), handle, Now())
      ensures !closed ==> unchanged(this)
    {
      hide Books, Owned, Proper, Roomy, Report, Reports, OnlyFlags, Decode;
      var result := CloseAsync(handle);
      if result == Busy { return false; }
      closed := result == Ok;
      if result != Ok {
        var i := Find(surfaces, handle);
        if i.None? { return false; }
        CloseConnection();
        DestroyLocal(i.value);
        closed := true;
      }
    }

    /** The first free slot whose generation can still grow. */
    method FreeSlot() returns (i: nat)
      requires Valid()
      ensures i <= MAX_SURFACES && (i < MAX_SURFACES ==> !surfaces[i].active && generations[i] != U32_MAX)
      ensures i == MAX_SURFACES ==> forall k :: 0 <= k < MAX_SURFACES ==>
        surfaces[k].active || generations[k] == U32_MAX
    {
      i := 0;
      while i < MAX_SURFACES && (surfaces[i].active || generations[i] == U32_MAX)
        invariant i <= MAX_SURFACES && forall k :: 0 <= k < i ==> surfaces[k].active || generations[k] == U32_MAX
      {
        i := i + 1;
      }
    }

    /** A new window, or nothing at all. */
    method Create(memory: nat, attached: bool) returns (handle: Option<nat>)
      requires Valid()
      modifies this`surfaces, this`generations, this`live
      ensures Valid() && Created(old(Now()), memory, attached, handle, Now())
    {
      hide Books, Owned, Readbacks, Token;
      handle := None;
      ghost var before := Now();
      var i := FreeSlot();
      if i == MAX_SURFACES { return; }
      generations := generations[i := generations[i] + 1];
      var s := NO_SURFACE.(active := true, generation := generations[i]);
      BooksFlags(surfaces, jobs, live, i, s);
      surfaces := surfaces[i := s];
      var b := Allocate(memory);
      if b.None? {
        NoneOwned();
        DestroyLocal(i);
        SameSet(live, old(live));
        return;
      }
      ghost var more := live;
      BooksTake(surfaces, jobs, old(live), i, s.(buffers := b.value), live);
      surfaces := surfaces[i := s.(buffers := b.value)];
      if !attached {
        DestroyLocal(i);
        Undone(old(live), live, Owned(b.value));
        return;
      }
      handle := Some(Token(i, generations[i]));
      assert NewWindow(before, Now(), i, handle.value);
    }

    /** Calls that only set a surface's lease or its callback. */
    method Touch(handle: nat, lease: bool, callback: bool) returns (found: bool)
      requires Valid()
      modifies this`surfaces
      ensures Valid() && found == Find(old(surfaces), handle).Some?
      ensures found ==>
                var i := Find(old(surfaces), handle).value;
                surfaces == old(surfaces)[i := old(surfaces)[i].(acquired := lease, callback := callback)]
      ensures !found ==> unchanged(this)
    {
      hide Books;
      var i := Find(surfaces, handle);
      found := i.Some?;
      if found {
        var s := surfaces[i.value].(acquired := lease, callback := callback);
        BooksFlags(surfaces, jobs, live, i.value, s);
        surfaces := surfaces[i.value := s];
      }
    }

    /** Hands completions to their listeners, oldest first; one whose window has gone is discarded. */
    method Dispatch(maximum: nat) returns (told: seq<Completion>)
      requires Valid()
      modifies this`completions
      ensures Valid() && |told| <= maximum
      ensures exists n :: 0 <= n <= |old(completions)| && completions == old(completions)[n..] &&
                told == HeardOnes(surfaces, old(completions)[..n])
      ensures |told| < maximum ==> completions == []
    {
      hide Books, Proper, Heard, HeardOnes;
      told := [];
      ghost var n := 0;
      ghost var all := completions;
      NoneHeard(surfaces, all);
      while completions != [] && |told| < maximum
        invariant 0 <= n <= |all| && completions == all[n..]
        invariant |told| <= maximum && told == HeardOnes(surfaces, all[..n])
        decreases |completions|
      {
        HeardNext(surfaces, all, n);
        var c := completions[0];
        completions := completions[1..];
        if Heard(surfaces, c.handle) { told := told + [c]; }
        n := n + 1;
      }
    }
  }

  /** The window is gone with its buffers, and nobody else is concerned. With a connection, a job tells
      the compositor; without one, what was queued is completed as failed first. */
  ghost predicate Closed(before: State, handle: nat, after: State) {
    && |before.surfaces| == MAX_SURFACES && after.generations == before.generations
    && var i := Find(before.surfaces, handle);
       i.Some? &&
       if RoomIn(before) == Ok then
         && after.surfaces == before.surfaces[i.value := NO_SURFACE] && after.completions == before.completions
         && after.jobs == before.jobs + [Job(Plain, handle, 0, NO_BUFFERS)] && after.connected == before.connected
       else
         && after.jobs == [] && !after.connected
         && after.completions == before.completions + Reports(before.surfaces, before.jobs, IoError)
         && after.surfaces == ClearedAll(before.surfaces, before.jobs)[i.value := NO_SURFACE]
  }

  lemma NoneHeard(ss: seq<Surface>, cs: seq<Completion>)
    requires |ss| == MAX_SURFACES
    ensures HeardOnes(ss, cs[..0]) == []
  {
  }

  lemma HeardNext(ss: seq<Surface>, cs: seq<Completion>, n: nat)
    requires |ss| == MAX_SURFACES && n < |cs|
    ensures HeardOnes(ss, cs[..n + 1]) == HeardOnes(ss, cs[..n]) + if Heard(ss, cs[n].handle) then [cs[n]] else []
  {
    assert cs[..n + 1][..n] == cs[..n] && cs[..n + 1][n] == cs[n];
  }

  /** One free slot has become an active surface with buffers, named by its new generation. */
  predicate NewWindow(before: State, after: State, i: nat, handle: nat) {
    && i < |before.surfaces| == |after.surfaces| && i < |before.generations| == |after.generations|
    && !before.surfaces[i].active && after.generations == before.generations[i := before.generations[i] + 1]
    && after.surfaces == before.surfaces[i := after.surfaces[i]] && after.surfaces[i].active
    && after.surfaces[i].buffers.first >= 0 && after.surfaces[i].buffers.second >= 0
    && handle == Token(i, after.generations[i])
  }

  /** Some slot is free and its generation can still grow. */
  predicate Spare(s: State) {
    && |s.surfaces| == |s.generations| == MAX_SURFACES
    && exists k :: 0 <= k < MAX_SURFACES && !s.surfaces[k].active && s.generations[k] != U32_MAX
  }

  /** A new window exactly when there is a slot, memory for its buffers and the compositor takes them;
      otherwise at most a generation of a free slot is used up. */
  ghost predicate Created(before: State, memory: nat, attached: bool, handle: Option<nat>, after: State) {
    && (handle.Some? <==> Spare(before) && memory >= 2 && attached)
    && after == before.(surfaces := after.surfaces, generations := after.generations, live := after.live)
    && (handle.Some? ==> exists i :: NewWindow(before, after, i, handle.value))
    && (handle.None? ==>
          && after.live == before.live && |after.generations| == |before.generations| == MAX_SURFACES
          && |after.surfaces| == |before.surfaces| == MAX_SURFACES
          && forall k :: 0 <= k < MAX_SURFACES ==>
               && before.generations[k] <= after.generations[k]
               && if before.surfaces[k].active then after.surfaces[k] == before.surfaces[k]
                  else !after.surfaces[k].active)
  }

  function HeardOnes(ss: seq<Surface>, cs: seq<Completion>): seq<Completion>
    requires |ss| == MAX_SURFACES
  {
    if cs == [] then []
    else HeardOnes(ss, cs[..|cs| - 1]) + if Heard(ss, cs[|cs| - 1].handle) then [cs[|cs| - 1]] else []
  }

  lemma Undone(before: set<int>, after: set<int>, b: multiset<int>)
    requires multiset(before) + b == multiset(after) + b
    ensures before == after
  {
    Cancel(multiset(before), multiset(after), b);
    SameSet(before, after);
  }

  lemma SameSet(a: set<int>, b: set<int>)
    requires multiset(a) == multiset(b)
    ensures a == b
  {
    forall x ensures x in a <==> x in b {
      assert x in a <==> x in multiset(a);
      assert x in b <==> x in multiset(b);
    }
  }

  lemma Grows(before: set<int>, after: set<int>, b: Buffers)
    requires multiset(after) == multiset(before) + Owned(b) && b.first >= 0
    ensures before < after
  {
    forall x | x in before ensures x in after {
      assert multiset(after)[x] >= multiset(before)[x] >= 1;
    }
    assert multiset(after)[b.first] >= multiset(before)[b.first] + 1;
    assert b.first in after && b.first !in before;
  }

  lemma FreeHandle(live: set<int>)
    ensures exists h :: h >= 0 && h !in live
  {
    var bound := Above(live);
    assert bound !in live;
  }

  /** A number above all handles. */
  ghost function Above(live: set<int>): (b: nat)
    ensures forall h :: h in live ==> h < b
  {
    if h: int :| h in live then
      assert forall k :: k in live ==> k == h || k in live - {h};
      var rest := Above(live - {h});
      if rest <= h then h + 1 else rest
    else 0
  }

  lemma NoneOwned()
    ensures Owned(NO_BUFFERS) == multiset{}
  {
  }

  lemma NoReport(ss: seq<Surface>, job: Job, status: Status)
    requires |ss| == MAX_SURFACES && job.kind == Input
    ensures forall s: Status :: Report(ss, job, s) == []
  {
  }

  // Whole runs.

  datatype Command =
    | NewSurface(memory: nat, attached: bool)
    | ResizeOf(handle: nat, memory: nat)
    | CloseOf(handle: nat)
    | Send(handle: nat, kind: Kind, cookie: nat)
    | SendReadback(handle: nat, cookie: nat)
    | Set(handle: nat, lease: bool, callback: bool)
    | Finish(status: Status, intact: bool)
    | Lose
    | Reopen
    | Deliver(maximum: nat)

  /** What the caller learns. */
  datatype Outcome =
    | Opened(handle: Option<nat>)
    | Answered(status: Status)
    | Shut(closed: bool)
    | Told(told: seq<Completion>)
    | Done

  /** The answer to a call that queues a job. */
  function SendAnswer(s: State, handle: nat, kind: Kind): Status
    requires |s.surfaces| == MAX_SURFACES
  {
    var i := Find(s.surfaces, handle);
    if i.None? then (if kind == GpuFrame then NotSupported else InvalidHandle)
    else if kind == Query && !s.surfaces[i.value].callback then InvalidArgument
    else if kind == Frame && Engaged(s.surfaces[i.value]) then Busy
    else if kind == GpuFrame && Engaged(s.surfaces[i.value]) then InvalidArgument
    else RoomIn(s)
  }

  function ReadbackAnswer(s: State, handle: nat): Status
    requires |s.surfaces| == MAX_SURFACES
  {
    var i := Find(s.surfaces, handle);
    if i.None? || !s.surfaces[i.value].callback then InvalidArgument
    else if Engaged(s.surfaces[i.value]) then Busy
    else if |s.completions| + s.reservations >= COMPLETION_CAPACITY then Busy
    else RoomIn(s)
  }

  /** A call queued a job, or changed nothing. */
  ghost predicate Queued(before: State, answer: Status, job: Job, after: State) {
    && (answer == Ok ==>
          && |before.surfaces| == MAX_SURFACES
          && after == before.(jobs := before.jobs + [job], surfaces := Flagged(before.surfaces, job),
               reservations := before.reservations + if job.kind == Readback then 1 else 0))
    && (answer != Ok ==> after == before)
  }

  /** The answer to a resize. */
  function ResizeAnswer(s: State, handle: nat, memory: nat): Status
    requires |s.surfaces| == MAX_SURFACES
  {
    var i := Find(s.surfaces, handle);
    if i.None? then InvalidHandle
    else if s.surfaces[i.value].resizePending || s.surfaces[i.value].acquired || s.surfaces[i.value].readbackPending
    then Busy
    else if memory < 2 then IoError
    else RoomIn(s)
  }

  /** A resize takes new buffers and queues the old ones, or changes nothing. */
  ghost predicate ResizeTried(before: State, handle: nat, memory: nat, answer: Status, after: State) {
    && |before.surfaces| == MAX_SURFACES && answer == ResizeAnswer(before, handle, memory)
    && (answer != Ok ==> after == before)
    && (answer == Ok ==>
          var i := Find(before.surfaces, handle).value;
          && |after.surfaces| == MAX_SURFACES && before.live < after.live
          && multiset(after.live) == multiset(before.live) + Owned(after.surfaces[i].buffers)
          && after == before.(live := after.live,
               jobs := before.jobs + [Job(Resize, handle, 0, before.surfaces[i].buffers)],
               surfaces := before.surfaces[i := before.surfaces[i].(
                 buffers := after.surfaces[i].buffers, resizePending := true)]))
  }

  /** What each command does, by the state it meets. */
  ghost predicate Transition(before: State, command: Command, outcome: Outcome, after: State) {
    && |before.surfaces| == MAX_SURFACES
    && match command
       case NewSurface(memory, attached) =>
         outcome.Opened? && Created(before, memory, attached, outcome.handle, after)
       case ResizeOf(h, memory) => outcome.Answered? && ResizeTried(before, h, memory, outcome.status, after)
       case CloseOf(h) =>
         && outcome == Shut(var i := Find(before.surfaces, h);
              i.Some? && !before.surfaces[i.value].readbackPending && !before.surfaces[i.value].acquired &&
                RoomIn(before) != Busy)
         && (if outcome.closed then Closed(before, h, after) else after == before)
       case Send(h, kind, cookie) =>
         if kind == Resize || kind == Readback then outcome == Answered(InvalidArgument) && after == before
         else
           && outcome == Answered(SendAnswer(before, h, kind))
           && Queued(before, outcome.status, Job(kind, h, cookie, NO_BUFFERS), after)
       case SendReadback(h, cookie) =>
         && outcome == Answered(ReadbackAnswer(before, h))
         && Queued(before, outcome.status, Job(Readback, h, cookie, NO_BUFFERS), after)
       case Set(h, lease, callback) =>
         var i := Find(before.surfaces, h);
         after == if i.None? then before else before.(surfaces :=
           before.surfaces[i.value := before.surfaces[i.value].(acquired := lease, callback := callback)])
       case Finish(status, intact) =>
         if before.jobs == [] then after == before
         else
           && after == before.(jobs := before.jobs[1..], surfaces := Cleared(before.surfaces, before.jobs[0]),
                live := after.live, completions := before.completions +
                  Report(before.surfaces, before.jobs[0], Final(before.jobs[0], status, intact)),
                reservations := after.reservations)
       case Lose =>
         after == before.(jobs := [], surfaces := ClearedAll(before.surfaces, before.jobs), live := after.live,
           reservations := after.reservations,
           completions := before.completions + Reports(before.surfaces, before.jobs, IoError), connected := false)
       case Reopen => after == before.(connected := true)
       case Deliver(maximum) =>
         && outcome.Told? && |outcome.told| <= maximum && after == before.(completions := after.completions)
         && (exists n :: 0 <= n <= |before.completions| && after.completions == before.completions[n..] &&
                         outcome.told == HeardOnes(before.surfaces, before.completions[..n]))
         && (|outcome.told| < maximum ==> after.completions == [])
  }

  method Obey(runtime: Runtime, command: Command) returns (outcome: Outcome)
    requires runtime.Valid()
    modifies runtime
    ensures runtime.Valid() && Transition(old(runtime.Now()), command, outcome, runtime.Now())
  {
    hide Books, Proper, Roomy, SameListeners, HeardOnes, Reports, Report, Cleared, Created, Closed, Decode, ResizeTried;
    hide Flagged, ClearedAll;
    outcome := Done;
    match command {
      case NewSurface(memory, attached) => { var h := runtime.Create(memory, attached); outcome := Opened(h); }
      case ResizeOf(h, memory) => { var r := runtime.ResizeSurface(h, memory); outcome := Answered(r); }
      case CloseOf(h) => { var r := runtime.Close(h); outcome := Shut(r); }
      case Send(h, kind, cookie) => {
        outcome := Answered(InvalidArgument);
        if kind != Resize && kind != Readback { var r := runtime.Submit(h, kind, cookie); outcome := Answered(r); }
      }
      case SendReadback(h, cookie) => { var r := runtime.SubmitReadback(h, cookie); outcome := Answered(r); }
      case Set(h, lease, callback) => { var r := runtime.Touch(h, lease, callback); }
      case Finish(status, intact) => { if runtime.jobs != [] { runtime.CompleteHead(status, intact); } }
      case Lose => { runtime.CloseConnection(); }
      case Reopen => { runtime.connected := true; }
      case Deliver(maximum) => { var told := runtime.Dispatch(maximum); outcome := Told(told); }
    }
  }

  /** A run of the runtime: the states it went through and what the caller learned. */
  ghost predicate History(states: seq<State>, script: seq<Command>, outcomes: seq<Outcome>) {
    && |states| == |script| + 1 && |outcomes| == |script|
    && (forall i :: 0 <= i < |states| ==> Sound(states[i]))
    && (forall i :: 0 <= i < |script| ==> Transition(states[i], script[i], outcomes[i], states[i + 1]))
  }

  /** Over every run from the start, the runtime does what each command asks; in every state each live
      handle has exactly one owner and each owned handle is live, and there is room for the
      completion of every queued job. */
  method Run(script: seq<Command>) returns (runtime: Runtime, ghost states: seq<State>, outcomes: seq<Outcome>)
    ensures fresh(runtime) && History(states, script, outcomes) && states[|script|] == runtime.Now()
    ensures states[0] == EMPTY
    ensures forall i, h :: 0 <= i < |states| ==>
      (h in states[i].live <==> exists o: Owner :: Owns(states[i].surfaces, states[i].jobs, o, h))
  {
    hide Sound, Transition;
    runtime := new Runtime();
    states, outcomes := [runtime.Now()], [];
    for i := 0 to |script|
      invariant fresh(runtime) && runtime.Valid() && |states| == i + 1 && states[i] == runtime.Now()
      invariant states[0] == EMPTY
      invariant History(states, script[..i], outcomes)
    {
      var outcome := Obey(runtime, script[i]);
      HistoryGrows(states, script[..i], outcomes, script[i], outcome, runtime.Now());
      assert script[..i + 1] == script[..i] + [script[i]];
      states, outcomes := states + [runtime.Now()], outcomes + [outcome];
    }
    assert script[..|script|] == script;
    forall i, h | 0 <= i < |states|
      ensures h in states[i].live <==> exists o: Owner :: Owns(states[i].surfaces, states[i].jobs, o, h)
    {
      OwnersOf(states[i], h);
    }
  }

  lemma OwnersOf(s: State, h: int)
    requires Sound(s)
    ensures h in s.live <==> exists o: Owner :: Owns(s.surfaces, s.jobs, o, h)
  {
    ExactlyOneOwner(s.surfaces, s.jobs, s.live, h);
  }

  lemma HistoryGrows(states: seq<State>, script: seq<Command>, outcomes: seq<Outcome>, command: Command,
      outcome: Outcome, next: State)
    requires History(states, script, outcomes) && Sound(next) && Transition(states[|script|], command, outcome, next)
    ensures History(states + [next], script + [command], outcomes + [outcome])
  {
    hide Sound, Transition;
  }

  // A closed window's handle.

  /** The slot has moved on from this handle. */
  predicate Gone(s: State, handle: nat) {
    |s.surfaces| == |s.generations| == MAX_SURFACES &&
    match Decode(handle)
    case None => true
    case Some(d) =>
      d.1 <= s.generations[d.0] && !(s.surfaces[d.0].active && s.surfaces[d.0].generation == d.1)
  }

  lemma GoneIsLost(s: State, handle: nat)
    requires Gone(s, handle)
    ensures Find(s.surfaces, handle).None?
  {
  }

  /** A handle that stood for a window and no longer does is gone. */
  lemma LostIsGone(before: State, command: Command, outcome: Outcome, after: State, handle: nat)
    requires Sound(before) && Sound(after) && Transition(before, command, outcome, after)
    requires Find(before.surfaces, handle).Some? && Find(after.surfaces, handle).None?
    ensures Gone(after, handle)
  {
    var d := Decode(handle).value;
    GenerationsGrow(before, command, outcome, after, d.0);
  }

  /** Generations only grow, and a slot becomes active only under a new one. */
  lemma GenerationsGrow(before: State, command: Command, outcome: Outcome, after: State, i: nat)
    requires Sound(before) && Sound(after) && Transition(before, command, outcome, after) && i < MAX_SURFACES
    ensures before.generations[i] <= after.generations[i]
    ensures after.surfaces[i].active ==>
      || (before.surfaces[i].active && after.surfaces[i].generation == before.surfaces[i].generation)
      || after.surfaces[i].generation > before.generations[i]
  {
    hide Books, Roomy, Proper, HeardOnes, Reports, Report, Find;
  }

  lemma GoneStays(before: State, command: Command, outcome: Outcome, after: State, handle: nat)
    requires Sound(before) && Sound(after) && Transition(before, command, outcome, after) && Gone(before, handle)
    ensures Gone(after, handle)
  {
    if Decode(handle).Some? {
      GenerationsGrow(before, command, outcome, after, Decode(handle).value.0);
    }
    hide Transition, Sound;
  }

  /** Once a window's handle has ceased to stand for it, it never stands for anything again. */
  lemma {:induction false} ClosedForGood(states: seq<State>, script: seq<Command>, outcomes: seq<Outcome>, handle: nat,
      i: nat, k: nat)
    requires History(states, script, outcomes) && i < k < |states|
    requires Find(states[i].surfaces, handle).Some? && Find(states[i + 1].surfaces, handle).None?
    ensures Gone(states[k], handle) && Find(states[k].surfaces, handle).None?
    decreases k
  {
    hide Transition, Sound;
    if k == i + 1 {
      LostIsGone(states[i], script[i], outcomes[i], states[k], handle);
    } else {
      ClosedForGood(states, script, outcomes, handle, i, k - 1);
      GoneStays(states[k - 1], script[k - 1], outcomes[k - 1], states[k], handle);
    }
    GoneIsLost(states[k], handle);
  }

  /** No handle stands for the last slot of the table. */
  lemma LastSlotHasNoHandle(ss: seq<Surface>, handle: nat)
    requires |ss| == MAX_SURFACES
    ensures Find(ss, handle) != Some(MAX_SURFACES - 1)
  {
  }

  /** So the window there can never be closed, and keeps its buffers for the life of the process. */
  lemma {:induction false} LastSlotStays(states: seq<State>, script: seq<Command>, outcomes: seq<Outcome>, i: nat,
      k: nat)
    requires History(states, script, outcomes) && i <= k < |states|
    requires |states[i].surfaces| == MAX_SURFACES && states[i].surfaces[MAX_SURFACES - 1].active
    ensures |states[k].surfaces| == MAX_SURFACES && states[k].surfaces[MAX_SURFACES - 1].active
    ensures states[k].surfaces[MAX_SURFACES - 1].buffers == states[i].surfaces[MAX_SURFACES - 1].buffers
    decreases k
  {
    hide Transition, Sound;
    TableSize(states[k]);
    if i < k {
      LastSlotStays(states, script, outcomes, i, k - 1);
      LastSlotStep(states[k - 1], script[k - 1], outcomes[k - 1], states[k]);
    }
  }

  lemma TableSize(s: State)
    requires Sound(s)
    ensures |s.surfaces| == |s.generations| == MAX_SURFACES
  {
  }

  lemma LastSlotStep(before: State, command: Command, outcome: Outcome, after: State)
    requires Sound(before) && Sound(after) && Transition(before, command, outcome, after)
    requires |before.surfaces| == |after.surfaces| == MAX_SURFACES && before.surfaces[MAX_SURFACES - 1].active
    ensures after.surfaces[MAX_SURFACES - 1].active
    ensures after.surfaces[MAX_SURFACES - 1].buffers == before.surfaces[MAX_SURFACES - 1].buffers
  {
    hide Books, Roomy, HeardOnes, Reports, Report;
  }
}
