/** One window's double buffer: leases, presents, resizes and the completions of their queued jobs.
    The two shared buffers together behave as one persistent canvas. */
module Canvas {
  import opened Common

  datatype Result = Ok | Busy | InvalidArgument | InvalidHandle | LimitExceeded | Io | Corrupt

  type Pixels = seq<bv8>

  function Blank(size: nat): Pixels { seq(size, _ => 0) }

  /** What the window is to its owner: one canvas, a lease, at most one promised frame, the frames
      the compositor has accepted, and whether it is closed. */
  datatype View = View(canvas: Pixels, leased: bool, promised: Option<Pixels>, shown: seq<Pixels>, closed: bool)

  datatype Event =
    | Leased
    | Wrote(index: nat, value: bv8)
    | Returned
    | Presented
    | Accepted
    | Dropped
    | Resized(size: nat)
    | Idle
    | Closed

  predicate Possible(v: View, e: Event) {
    && !v.closed
    && match e
       case Leased => !v.leased && v.promised.None?
       case Wrote(i, _) => v.leased && i < |v.canvas|
       case Returned => v.leased
       case Presented => !v.leased && v.promised.None?
       case Accepted => v.promised.Some?
       case Dropped => v.promised.Some?
       case Resized(_) => !v.leased
       case Idle => true
       case Closed => !v.leased
  }

  function Apply(v: View, e: Event): View
    requires Possible(v, e)
  {
    match e
    case Leased => v.(leased := true)
    case Wrote(i, b) => v.(canvas := v.canvas[i := b])
    case Returned => v.(leased := false)
    case Presented => v.(promised := Some(v.canvas))
    case Accepted => v.(promised := None, shown := v.shown + [v.promised.value])
    case Dropped => v.(promised := None)
    case Resized(n) => v.(canvas := Blank(n))
    case Idle => v
    case Closed => v.(promised := None, closed := true)
  }

  // The meaning of a run, told without a double buffer or a pending frame.

  /** The canvas that the writes since the last resize have painted. */
  function Painted(start: Pixels, es: seq<Event>): Pixels {
    if es == [] then start else
    var before := Painted(start, es[..|es| - 1]);
    match es[|es| - 1]
    case Wrote(i, b) => if i < |before| then before[i := b] else before
    case Resized(n) => Blank(n)
    case _ => before
  }

  /** The number of events before the latest present. */
  function LatestPresent(es: seq<Event>): nat
    ensures LatestPresent(es) <= |es|
  {
    if es == [] then 0
    else if es[|es| - 1] == Presented then |es| - 1
    else LatestPresent(es[..|es| - 1])
  }

  /** One frame for each acceptance: what was painted when it was presented. */
  function Frames(start: Pixels, es: seq<Event>): seq<Pixels> {
    if es == [] then [] else
    var before := es[..|es| - 1];
    if es[|es| - 1] == Accepted
    then Frames(start, before) + [Painted(start, before[..LatestPresent(before)])]
    else Frames(start, before)
  }

  /** The run of events from a view, when each is possible where it happens. */
  function Replay(v: View, es: seq<Event>): Option<View> {
    if es == [] then Some(v) else
    var n := |es| - 1;
    var before := Replay(v, es[..n]);
    if before.Some? && Possible(before.value, es[n]) then Some(Apply(before.value, es[n])) else None
  }

  predicate Happens(v: View, es: seq<Event>, w: View) { Replay(v, es) == Some(w) }

  lemma OneMore(v: View, es: seq<Event>, u: View, e: Event)
    requires Happens(v, es, u) && Possible(u, e)
    ensures Happens(v, es + [e], Apply(u, e))
  {
    assert (es + [e])[..|es|] == es;
  }

  lemma Once(v: View, e: Event)
    requires Possible(v, e)
    ensures Happens(v, [e], Apply(v, e))
  {
    OneMore(v, [], v, e);
    assert [] + [e] == [e];
  }

  lemma Nothing(v: View)
    ensures Happens(v, [], v)
  {
  }

  lemma {:induction false} Later(v: View, es: seq<Event>, u: View, more: seq<Event>, w: View)
    requires Happens(v, es, u) && Happens(u, more, w)
    ensures Happens(v, es + more, w)
    decreases |more|
  {
    if more == [] {
      assert es + more == es;
    } else {
      var n := |more| - 1;
      var x := Replay(u, more[..n]).value;
      Later(v, es, u, more[..n], x);
      OneMore(v, es + more[..n], x, more[n]);
      assert es + more[..n] + [more[n]] == es + more;
    }
  }

  /** Every accepted frame shows exactly what was painted, since creation or the last resize,
      at the moment it was presented. */
  lemma {:induction false} AcceptedFramesShowTheCanvas(v: View, es: seq<Event>, w: View)
    requires v.promised.None? && v.shown == [] && Happens(v, es, w)
    ensures w.canvas == Painted(v.canvas, es)
    ensures w.shown == Frames(v.canvas, es)
    ensures w.promised.Some? ==> w.promised.value == Painted(v.canvas, es[..LatestPresent(es)])
    decreases |es|
  {
    if es != [] {
      var n := |es| - 1;
      var u := Replay(v, es[..n]).value;
      AcceptedFramesShowTheCanvas(v, es[..n], u);
      if es[n] != Presented {
        assert es[..n][..LatestPresent(es[..n])] == es[..LatestPresent(es[..n])];
      }
    }
  }

  /** Whether a lease is open after these events: told without the window. */
  predicate LeaseOpen(es: seq<Event>) {
    es != [] && (es[|es| - 1] == Leased || (es[|es| - 1] != Returned && LeaseOpen(es[..|es| - 1])))
  }

  /** While a lease is open nothing is presented, resized, leased again or closed; and bytes are
      written and leases returned only then. Nothing at all happens to a closed window. */
  lemma {:induction false} LeaseExcludes(v: View, es: seq<Event>, w: View, i: nat)
    requires !v.leased && Happens(v, es, w) && i < |es|
    ensures w.leased == LeaseOpen(es)
    ensures es[i] == Presented || es[i] == Leased || es[i].Resized? || es[i] == Closed ==> !LeaseOpen(es[..i])
    ensures es[i].Wrote? || es[i] == Returned ==> LeaseOpen(es[..i])
    ensures es[i] == Closed ==> i == |es| - 1 && w.closed
    decreases |es|
  {
    var n := |es| - 1;
    var u := Replay(v, es[..n]).value;
    if n == 0 {
      assert es[..0] == [];
    } else {
      LeaseExcludes(v, es[..n], u, if i < n then i else 0);
    }
    if i < n {
      assert es[..n][..i] == es[..i];
    }
  }

  /** What `wnd_acquire_render_target` hands out. */
  datatype Target = Target(pixels: array<bv8>, size: nat, generation: nat, slot: nat)

  /** The queued jobs that concern the canvas, in queue order. */
  datatype Job = Frame(slot: nat) | Resize

  predicate Shape(jobs: seq<Job>) {
    || jobs == []
    || jobs == [Resize]
    || (|jobs| == 1 && jobs[0].Frame?)
    || (|jobs| == 2 && jobs[0].Frame? && jobs[1] == Resize)
  }

  lemma ShapeGrows(jobs: seq<Job>)
    requires Shape(jobs) && Resize !in jobs
    ensures Shape(jobs + [Resize]) && Resize in jobs + [Resize]
    ensures |jobs| > 0 ==> (jobs + [Resize])[0] == jobs[0]
    ensures (jobs + [Resize])[0].Frame? ==> |jobs| > 0
  {
    assert (jobs + [Resize])[|jobs|] == Resize;
    if |jobs| == 1 {
      assert jobs + [Resize] == [jobs[0], Resize];
    } else {
      assert jobs + [Resize] == [Resize];
    }
  }

  lemma ShapeShrinks(jobs: seq<Job>)
    requires Shape(jobs) && jobs != []
    ensures Shape(jobs[1..]) && !(|jobs[1..]| > 0 && jobs[1..][0].Frame?)
    ensures Resize in jobs[1..] <==> jobs[0].Frame? && Resize in jobs
  {
    if |jobs| == 2 { assert jobs[1..] == [Resize]; }
  }

  datatype Work = FrameWork | ResizeWork

  function KindOf(job: Job): Work { if job.Frame? then FrameWork else ResizeWork }

  function Kinds(jobs: seq<Job>): seq<Work> { seq(|jobs|, i requires 0 <= i < |jobs| => KindOf(jobs[i])) }

  /** The events of completing each of these as failed. */
  function Failures(queue: seq<Work>): seq<Event> {
    seq(|queue|, i requires 0 <= i < |queue| => if queue[i].FrameWork? then Dropped else Idle)
  }

  lemma NoFailures(jobs: seq<Job>)
    ensures Failures(Kinds(jobs[..0])) == [] && jobs[0..] == jobs
  {
  }

  lemma FailuresGrow(jobs: seq<Job>, done: nat)
    requires done < |jobs|
    ensures Failures(Kinds(jobs[..done + 1]))
         == Failures(Kinds(jobs[..done])) + [if jobs[done] == Resize then Idle else Dropped]
  {
  }

  // A window told without buffers: its view, the kinds of its queued jobs, whether a copy of the front
  // buffer is owed, and two counters.

  lemma KindsGrow(jobs: seq<Job>, job: Job)
    ensures Kinds(jobs + [job]) == Kinds(jobs) + [KindOf(job)]
  {
  }

  lemma KindsShrink(jobs: seq<Job>)
    requires jobs != []
    ensures Kinds(jobs[1..]) == Kinds(jobs)[1..]
  {
  }

  datatype Desk = Desk(view: View, queue: seq<Work>, owing: bool, sequence: nat, generation: nat)

  function NewDesk(size: nat, generation: nat): Desk {
    Desk(View(Blank(size), false, None, [], false), [], false, 0, generation)
  }

  /** What the owner and the compositor may do next; the answers of the parts not modelled here
      (slot reuse, shared memory, the queue) come with the command. */
  datatype Command =
    | TakeLease(available: Result)
    | Paint(at: nat, colour: bv8)
    | EndLease
    | Submit(queued: Result)
    | Grow(size: nat, generation: nat, memory: bool, answer: Result)
    | Finish(success: bool)
    | Lose
    | Shut(reply: Result)

  /** What comes of a command. */
  function Reply(d: Desk, c: Command): seq<Event> {
    if d.view.closed then [] else
    match c
    case TakeLease(available) =>
      if d.view.leased || d.queue != [] || d.generation == 0 || available != Ok then [] else [Leased]
    case Paint(at, colour) => if d.view.leased && at < |d.view.canvas| then [Wrote(at, colour)] else []
    case EndLease => if d.view.leased then [Returned] else []
    case Submit(queued) =>
      if d.view.leased || d.queue != [] || d.owing || d.sequence == U64_MAX || queued != Ok then [] else [Presented]
    case Grow(size, _, memory, answer) =>
      if d.view.leased || ResizeWork in d.queue || !memory || answer != Ok then [] else [Resized(size)]
    case Finish(success) =>
      if d.queue == [] then []
      else if d.queue[0].ResizeWork? then [Idle]
      else if success then [Accepted] else [Dropped]
    case Lose => Failures(d.queue)
    case Shut(reply) => if d.view.leased || reply != Ok then [] else [Closed]
  }

  /** How the window stands after it. */
  function Then(d: Desk, c: Command): Desk {
    var es := Reply(d, c);
    if es == [] || Replay(d.view, es).None? then d else
    var after := d.(view := Replay(d.view, es).value);
    match c
    case TakeLease(_) => after.(owing := false)
    case Submit(_) => after.(queue := d.queue + [FrameWork], sequence := d.sequence + 1)
    case Grow(_, generation, _, _) => after.(queue := d.queue + [ResizeWork], owing := false, generation := generation)
    case Finish(success) => after.(queue := d.queue[1..], owing := d.owing || es == [Accepted])
    case Lose => after.(queue := [])
    case Shut(_) => after.(queue := [])
    case _ => after
  }

  /** A whole script of commands: the events and where they lead. */
  function Told(d: Desk, script: seq<Command>): seq<Event> {
    if script == [] then [] else
    var n := |script| - 1;
    Told(d, script[..n]) + Reply(Play(d, script[..n]), script[n])
  }

  function Play(d: Desk, script: seq<Command>): Desk {
    if script == [] then d else
    var n := |script| - 1;
    Then(Play(d, script[..n]), script[n])
  }

  /** Two zeroed buffers of shared memory. */
  method Allocate(size: nat) returns (buffers: seq<array<bv8>>)
    ensures |buffers| == 2 && buffers[0] != buffers[1] && fresh(buffers)
    ensures buffers[0].Length == buffers[1].Length == size
    ensures buffers[0][..] == Blank(size) && buffers[1][..] == Blank(size)
  {
    var a := new bv8[size](_ => 0);
    var b := new bv8[size](_ => 0);
    buffers := [a, b];
    assert a[..] == Blank(size) && b[..] == Blank(size);
  }

  /** The flags agree with the queued jobs and with the view. */
  predicate Consistent(jobs: seq<Job>, framePending: bool, resizePending: bool, acquired: bool, copyFront: bool,
                       leaseSlot: nat, drawSlot: nat, closed: bool, view: View) {
    && Shape(jobs)
    && framePending == (|jobs| > 0 && jobs[0].Frame?)
    && resizePending == (Resize in jobs)
    && (acquired ==> jobs == [] && !copyFront && leaseSlot == drawSlot)
    && (framePending ==> jobs[0].slot < 2)
    && (framePending && !resizePending ==> !copyFront && jobs[0].slot == drawSlot)
    && view.leased == acquired
    && view.promised.Some? == framePending
    && view.closed == closed && (closed ==> !acquired && jobs == [])
  }

  lemma ConsistentResized(jobs: seq<Job>, framePending: bool, copyFront: bool, leaseSlot: nat, drawSlot: nat,
      view: View, size: nat)
    requires Consistent(jobs, framePending, false, false, copyFront, leaseSlot, drawSlot, false, view)
    ensures Possible(view, Resized(size))
    ensures Consistent(jobs + [Resize], framePending, true, false, false, 0, 0, false, Apply(view, Resized(size)))
    ensures framePending ==>
      |jobs| > 0 && jobs[0].Frame? && jobs[0].slot < 2 && (jobs + [Resize])[0] == jobs[0] && view.promised.Some?
  {
    hide Blank;
    ShapeGrows(jobs);
  }

  class Window {
    var pixels: seq<array<bv8>>
    var size: nat
    var generation: nat
    var drawSlot: nat
    var frontSlot: nat
    var copyFront: bool
    var acquired: bool
    var leaseSlot: nat
    var framePending: bool
    var resizePending: bool
    var sequence: nat
    var closed: bool
    var jobs: seq<Job>
    /** The buffers the compositor currently has attached. */
    ghost var attached: seq<array<bv8>>
    ghost var view: View

    ghost predicate Buffers()
      reads this
    {
      && |pixels| == |attached| == 2
      && pixels[0] != pixels[1] && attached[0] != attached[1]
      && pixels[0].Length == pixels[1].Length == size
      && drawSlot < 2 && frontSlot < 2
      && (!resizePending ==> attached == pixels)
      && (resizePending ==> pixels[0] !in attached && pixels[1] !in attached)
    }

    ghost predicate Flags()
      reads this
    {
      Consistent(jobs, framePending, resizePending, acquired, copyFront, leaseSlot, drawSlot, closed, view)
    }

    /** The canvas is in the draw buffer, or in the front buffer while a copy is owed. */
    ghost predicate Contents()
      requires Buffers() && Flags()
      reads this, pixels, attached
    {
      && (if copyFront then pixels[frontSlot] else pixels[drawSlot])[..] == view.canvas
      && (resizePending ==> pixels[0][..] == view.canvas && pixels[1][..] == view.canvas)
      && (framePending ==> attached[jobs[0].slot][..] == view.promised.value)
    }

    ghost predicate Valid()
      reads this, pixels, attached
    {
      Buffers() && Flags() && Contents()
    }

    constructor (size: nat, generation: nat)
      ensures Valid() && fresh(pixels) && fresh(attached)
      ensures view == View(Blank(size), false, None, [], false) && this.generation == generation
      ensures Summary() == NewDesk(size, generation)
    {
      var a := new bv8[size](_ => 0);
      var b := new bv8[size](_ => 0);
      pixels, attached := [a, b], [a, b];
      this.size, this.generation := size, generation;
      drawSlot, frontSlot, copyFront := 0, 0, false;
      acquired, leaseSlot, framePending, resizePending, sequence, closed := false, 0, false, false, 0, false;
      jobs := [];
      view := View(Blank(size), false, None, [], false);
      new;
      assert a[..] == Blank(size) && b[..] == Blank(size);
    }

    method CopyFront()
      requires Valid() && !acquired && jobs == []
      modifies this`copyFront, pixels[drawSlot]
      ensures Valid() && !copyFront && pixels[drawSlot][..] == view.canvas
    {
      if copyFront {
        var to, from := pixels[drawSlot], pixels[frontSlot];
        if drawSlot != frontSlot {
          var i := 0;
          while i < size
            invariant 0 <= i <= size && Buffers() && Flags()
            invariant to[..i] == from[..i] && from[..] == old(from[..])
          {
            to[i] := from[i];
            i := i + 1;
          }
          assert to[..] == to[..size] == from[..size] == from[..];
        }
        copyFront := false;
      }
    }

    /** Leases the draw buffer holding the whole canvas. `available` is the compositor's answer to
        whether that buffer may be reused. */
    method Acquire(available: Result) returns (result: Result, target: Option<Target>)
      requires Valid()
      modifies this, pixels
      ensures Valid() && pixels == old(pixels) && attached == old(attached) && generation == old(generation)
      ensures result == if old(closed) then InvalidHandle
                        else if old(acquired || framePending || resizePending) then Busy
                        else if old(generation) == 0 then Corrupt else available
      ensures sequence == old(sequence) && jobs == old(jobs)
      ensures result == Ok <==> target.Some?
      ensures result == Ok ==> Possible(old(view), Leased) && view == Apply(old(view), Leased)
      ensures result == Ok ==>
                && acquired && !copyFront && drawSlot < |pixels| == 2
                && target.value == Target(pixels[drawSlot], size, generation, drawSlot)
                && target.value.pixels[..] == view.canvas
      ensures result != Ok ==> unchanged(this, pixels)
    {
      target := None;
      if closed { return InvalidHandle, None; }
      if acquired || framePending || resizePending { return Busy, None; }
      if generation == 0 { return Corrupt, None; }
      if available != Ok { return available, None; }
      CopyFront();
      result, target := Ok, Some(Target(pixels[drawSlot], size, generation, drawSlot));
      acquired, leaseSlot := true, drawSlot;
      view := Apply(view, Leased);
    }

    /** The owner writes a byte of the leased buffer. */
    method Write(target: Target, index: nat, value: bv8)
      requires Valid() && acquired && target.pixels == pixels[drawSlot] && index < size
      modifies this`view, target.pixels
      ensures Valid()
      ensures Possible(old(view), Wrote(index, value)) && view == Apply(old(view), Wrote(index, value))
    {
      target.pixels[index] := value;
      view := Apply(view, Wrote(index, value));
      assert target.pixels[..] == view.canvas;
    }

    /** Ends the lease when the target is exactly the one handed out. */
    method Release(target: Target) returns (result: Result)
      requires Valid()
      modifies this`acquired, this`leaseSlot, this`view
      ensures Valid()
      ensures result == if closed then InvalidHandle else if !old(acquired) then Busy
                        else if target == Target(pixels[drawSlot], size, generation, drawSlot) then Ok
                        else InvalidArgument
      ensures result == Ok ==> Possible(old(view), Returned) && view == Apply(old(view), Returned) && !acquired
      ensures result != Ok ==> unchanged(this)
    {
      if closed { return InvalidHandle; }
      if !acquired { return Busy; }
      if target.pixels != pixels[leaseSlot] || target.generation != generation ||
         target.slot != leaseSlot || target.size != size
      {
        return InvalidArgument;
      }
      acquired, leaseSlot := false, 0;
      view := Apply(view, Returned);
      result := Ok;
    }

    /** Queues the draw buffer as the next frame. `queued` is the queue's answer. */
    method Present(queued: Result) returns (result: Result)
      requires Valid()
      modifies this
      ensures Valid() && pixels == old(pixels) && attached == old(attached)
      ensures result == if old(closed) then InvalidHandle
                        else if old(acquired || framePending || resizePending || copyFront) then Busy
                        else if old(sequence) == U64_MAX then LimitExceeded else queued
      ensures result == Ok ==>
                && Possible(old(view), Presented) && view == Apply(old(view), Presented)
                && !acquired && !copyFront && generation == old(generation) && jobs == [Frame(old(drawSlot))] &&
                     sequence == old(sequence) + 1
      ensures result != Ok ==> unchanged(this)
    {
      if closed { return InvalidHandle; }
      if acquired || framePending || resizePending || copyFront { return Busy; }
      if sequence == U64_MAX { return LimitExceeded; }
      if queued != Ok { return queued; }
      jobs := jobs + [Frame(drawSlot)];
      framePending, sequence := true, sequence + 1;
      view := Apply(view, Presented);
      result := Ok;
    }

    /** The window takes the new buffers and a resize job keeps the old ones. */
    method Install(candidate: seq<array<bv8>>, newSize: nat, newGeneration: nat)
      requires Valid() && !acquired && !resizePending && !closed
      requires |candidate| == 2 && candidate[0] != candidate[1]
      requires candidate[0] !in attached && candidate[1] !in attached
      requires candidate[0].Length == candidate[1].Length == newSize
      requires candidate[0][..] == Blank(newSize) && candidate[1][..] == Blank(newSize)
      modifies this`pixels, this`size, this`generation, this`drawSlot, this`frontSlot, this`copyFront, this`leaseSlot,
               this`jobs, this`resizePending, this`view
      ensures Valid()
      ensures Possible(old(view), Resized(newSize)) && view == Apply(old(view), Resized(newSize))
      ensures jobs == old(jobs) + [Resize] && generation == newGeneration && pixels == candidate && !copyFront
    {
      hide Consistent, Blank;
      ConsistentResized(jobs, framePending, copyFront, leaseSlot, drawSlot, view, newSize);
      TakeBuffers(candidate, newSize, newGeneration);
      jobs, resizePending, view := jobs + [Resize], true, Apply(view, Resized(newSize));
      assert Buffers();
      assert Flags();
      assert pixels[drawSlot][..] == view.canvas && pixels[1][..] == view.canvas;
      assert framePending ==> attached[jobs[0].slot][..] == view.promised.value;
    }

    method TakeBuffers(candidate: seq<array<bv8>>, newSize: nat, newGeneration: nat)
      modifies this`pixels, this`size, this`generation, this`drawSlot, this`frontSlot, this`copyFront, this`leaseSlot
      ensures pixels == candidate && size == newSize && generation == newGeneration
      ensures drawSlot == 0 && frontSlot == 0 && !copyFront && leaseSlot == 0
    {
      pixels, size, generation := candidate, newSize, newGeneration;
      drawSlot, frontSlot, copyFront, leaseSlot := 0, 0, false, 0;
    }

    /** Replaces both buffers at once; the old ones stay attached until the queued job completes.
        `memory` and `queued` answer for shared memory and the queue. */
    method ResizeTo(newSize: nat, newGeneration: nat, memory: bool, queued: Result) returns (result: Result)
      requires Valid()
      modifies this
      ensures Valid() && attached == old(attached)
      ensures result == if old(closed) then InvalidHandle else if old(resizePending || acquired) then Busy
                        else if !memory then Io else queued
      ensures result == Ok ==>
                && Possible(old(view), Resized(newSize)) && view == Apply(old(view), Resized(newSize))
                && !acquired && jobs == old(jobs) + [Resize] && generation == newGeneration && fresh(pixels)
                && !copyFront && sequence == old(sequence)
      ensures result != Ok ==> unchanged(this)
    {
      if closed { return InvalidHandle; }
      if resizePending || acquired { return Busy; }
      if !memory { return Io; }
      if queued != Ok { return queued; }
      var candidate := Allocate(newSize);
      Install(candidate, newSize, newGeneration);
      result := Ok;
    }

    /** The oldest job completes. An accepted commit shows the buffer attached at its slot. After a
        resize, successful or not, the compositor ends up with the window's own buffers attached:
        a failure drops the connection, and connecting again attaches them. */
    method Complete(success: bool) returns (ghost event: Event)
      requires Valid() && jobs != []
      modifies this`drawSlot, this`frontSlot, this`copyFront, this`framePending, this`resizePending, this`jobs,
               this`attached, this`view
      ensures Valid() && jobs == old(jobs)[1..]
      ensures event == if old(jobs)[0] == Resize then Idle else if success then Accepted else Dropped
      ensures Possible(old(view), event) && view == Apply(old(view), event)
      ensures event == Accepted ==> view.shown == old(view.shown) + [old(attached[jobs[0].slot][..])]
      ensures attached == if old(jobs)[0] == Resize then pixels else old(attached)
      ensures !acquired
      ensures copyFront == (old(copyFront) || event == Accepted)
    {
      ShapeShrinks(jobs);
      var job := jobs[0];
      jobs := jobs[1..];
      if job.Frame? {
        framePending := false;
        if success {
          frontSlot, drawSlot, copyFront := job.slot, 1 - job.slot, true;
        }
        event := if success then Accepted else Dropped;
      } else {
        resizePending := false;
        attached := pixels;
        event := Idle;
      }
      view := Apply(view, event);
    }

    /** The connection is lost: every queued job is completed as failed. */
    method Abort() returns (ghost events: seq<Event>)
      requires Valid()
      modifies this`drawSlot, this`frontSlot, this`copyFront, this`framePending, this`resizePending, this`jobs,
               this`attached, this`view
      ensures Valid() && jobs == [] && attached == pixels
      ensures Happens(old(view), events, view) && Accepted !in events
      ensures acquired ==> unchanged(this)
      ensures events == Failures(Kinds(old(jobs))) && copyFront == old(copyFront)
    {
      hide Happens, Possible, Apply, Valid, Failures, Kinds;
      events := [];
      ghost var done := 0;
      NoFailures(jobs);
      Nothing(view);
      while jobs != []
        invariant Valid() && Happens(old(view), events, view) && Accepted !in events
        invariant acquired ==> unchanged(this)
        invariant done <= |old(jobs)| && jobs == old(jobs)[done..] && events == Failures(Kinds(old(jobs)[..done]))
        invariant copyFront == old(copyFront)
        decreases |jobs|
      {
        ghost var before := view;
        ghost var event := Complete(false);
        OneMore(old(view), events, before, event);
        FailuresGrow(old(jobs), done);
        events := events + [event];
        done := done + 1;
      }
      assert old(jobs)[..done] == old(jobs);
      Settled();
    }

    lemma Settled()
      requires Valid() && jobs == []
      ensures attached == pixels
    {
    }

    /** Closes the window, outside a lease. The jobs still queued no longer concern it, and its handle
        is no longer good for anything. */
    method Close(queued: Result) returns (result: Result)
      requires Valid()
      modifies this`closed, this`jobs, this`framePending, this`resizePending, this`attached, this`view
      ensures Valid()
      ensures result == if old(closed) then InvalidHandle else if acquired then Busy else queued
      ensures result == Ok ==>
                Possible(old(view), Closed) && view == Apply(old(view), Closed) && jobs == [] && closed && !acquired
      ensures result != Ok ==> unchanged(this)
    {
      if closed { return InvalidHandle; }
      if acquired { return Busy; }
      if queued != Ok { return queued; }
      closed, jobs, framePending, resizePending, attached, view := true, [], false, false, pixels, Apply(view, Closed);
      result := Ok;
    }

    /** What of the window decides how it answers. */
    ghost function Summary(): Desk
      reads this
    {
      Desk(view, Kinds(jobs), copyFront, sequence, generation)
    }
  }

  // Whole runs.

  /** The owner holds exactly the target of the current lease. */
  ghost predicate Holds(window: Window, held: Option<Target>)
    reads window
  {
    && window.acquired == held.Some?
    && (held.Some? ==>
        && |window.pixels| == 2 && window.drawSlot < 2
        && held.value == Target(window.pixels[window.drawSlot], window.size, window.generation, window.drawSlot))
  }

  /** What the summary says of the flags. */
  lemma Standing(window: Window)
    requires window.Valid()
    ensures
      var d := window.Summary();
      && d.view.closed == window.closed && d.view.leased == window.acquired && |d.view.canvas| == window.size
      && (d.queue == [] <==> window.jobs == []) && (window.jobs != [] <==> window.framePending || window.resizePending)
      && window.resizePending == (ResizeWork in d.queue)
      && (window.jobs != [] ==> (d.queue[0] == ResizeWork <==> window.jobs[0] == Resize))
      && (window.closed ==> window.jobs == [] && !window.acquired) && (window.acquired ==> window.jobs == [])
      && (Failures(d.queue) == [] <==> d.queue == []) && Kinds([]) == []
  {
    assert forall i :: 0 <= i < |window.jobs| ==> Kinds(window.jobs)[i] == KindOf(window.jobs[i]);
  }

  lemma HappensIsReplay(v: View, es: seq<Event>, w: View)
    requires Happens(v, es, w)
    ensures Replay(v, es) == Some(w)
  {
  }

  /** Carries out a command of the lease; what comes of it is what the table says. */
  method Lend(window: Window, held: Option<Target>, command: Command)
    returns (now: Option<Target>, ghost events: seq<Event>)
    requires window.Valid() && Holds(window, held) && (command.TakeLease? || command.Paint? || command.EndLease?)
    modifies window, window.pixels
    ensures window.Valid() && Holds(window, now) && window.pixels == old(window.pixels)
    ensures Happens(old(window.view), events, window.view)
    ensures events == Reply(old(window.Summary()), command) && window.Summary() == Then(old(window.Summary()), command)
  {
    hide Happens, Possible, Apply, Replay, Window.Valid, Kinds, Failures, Blank;
    now, events := held, [];
    ghost var before := window.view;
    Nothing(before);
    Standing(window);
    match command {
      case TakeLease(available) =>
        var result, target := window.Acquire(available);
        if result == Ok { now, events := target, [Leased]; Once(before, Leased); }
      case Paint(at, colour) =>
        if held.Some? && at < window.size {
          window.Write(held.value, at, colour);
          events := [Wrote(at, colour)];
          Once(before, Wrote(at, colour));
        }
      case EndLease =>
        if held.Some? {
          var result := window.Release(held.value);
          now, events := None, [Returned];
          Once(before, Returned);
        }
    }
    HappensIsReplay(before, events, window.view);
  }

  /** The same for a command that concerns the queue. */
  method Serve(window: Window, command: Command) returns (ghost events: seq<Event>)
    requires window.Valid() && !command.TakeLease? && !command.Paint? && !command.EndLease?
    modifies window
    ensures window.Valid() && (window.pixels == old(window.pixels) || fresh(window.pixels))
    ensures window.acquired == old(window.acquired) && (window.acquired ==> unchanged(window))
    ensures Happens(old(window.view), events, window.view)
    ensures events == Reply(old(window.Summary()), command) && window.Summary() == Then(old(window.Summary()), command)
  {
    hide Happens, Possible, Apply, Replay, Window.Valid, Kinds, Failures, Blank;
    events := [];
    ghost var before := window.view;
    Nothing(before);
    Standing(window);
    match command {
      case Submit(queued) =>
        var result := window.Present(queued);
        if result == Ok {
          events := [Presented];
          Once(before, Presented);
          assert window.jobs == old(window.jobs) + [window.jobs[0]];
          KindsGrow(old(window.jobs), window.jobs[0]);
        }
      case Grow(size, generation, memory, answer) =>
        var result := window.ResizeTo(size, generation, memory, answer);
        if result == Ok {
          events := [Resized(size)];
          Once(before, Resized(size));
          KindsGrow(old(window.jobs), Resize);
        }
      case Finish(success) =>
        if window.jobs != [] {
          ghost var event := window.Complete(success);
          events := [event];
          Once(before, event);
          KindsShrink(old(window.jobs));
        }
      case Lose =>
        events := window.Abort();
      case Shut(reply) =>
        var result := window.Close(reply);
        if result == Ok { events := [Closed]; Once(before, Closed); }
    }
    HappensIsReplay(before, events, window.view);
  }

  /** Carries out a command; what comes of it is what the table says, no more and no less. */
  method Obey(window: Window, held: Option<Target>, command: Command)
    returns (now: Option<Target>, ghost events: seq<Event>)
    requires window.Valid() && Holds(window, held)
    modifies window, window.pixels
    ensures window.Valid() && Holds(window, now)
    ensures window.pixels == old(window.pixels) || fresh(window.pixels)
    ensures Happens(old(window.view), events, window.view)
    ensures events == Reply(old(window.Summary()), command) && window.Summary() == Then(old(window.Summary()), command)
  {
    hide Happens, Reply, Then, Window.Valid;
    now := held;
    if command.TakeLease? || command.Paint? || command.EndLease? {
      now, events := Lend(window, held, command);
    } else {
      events := Serve(window, command);
    }
  }

  /** Over every run the window is what the commands say: its canvas is what was painted since the last
      resize, and each accepted frame is the canvas as it was when presented. */
  method Run(size: nat, generation: nat, script: seq<Command>) returns (window: Window, ghost events: seq<Event>)
    ensures window.Valid() && fresh(window)
    ensures events == Told(NewDesk(size, generation), script) &&
      window.Summary() == Play(NewDesk(size, generation), script)
    ensures Happens(View(Blank(size), false, None, [], false), events, window.view)
    ensures window.view.canvas == Painted(Blank(size), events)
    ensures window.view.shown == Frames(Blank(size), events)
  {
    ghost var start := View(Blank(size), false, None, [], false);
    window := new Window(size, generation);
    events := [];
    var held: Option<Target> := None;
    for i := 0 to |script|
      invariant window.Valid() && Holds(window, held)
      invariant fresh(window) && fresh(window.pixels)
      invariant Happens(start, events, window.view)
      invariant events == Told(NewDesk(size, generation), script[..i])
      invariant window.Summary() == Play(NewDesk(size, generation), script[..i])
    {
      ghost var middle := window.view;
      ghost var more;
      held, more := Obey(window, held, script[i]);
      Later(start, events, middle, more, window.view);
      events := events + more;
      assert script[..i + 1][..i] == script[..i];
    }
    assert script[..|script|] == script;
    AcceptedFramesShowTheCanvas(start, events, window.view);
  }
}
