/** The generation numbers of render targets: never zero, pairwise distinct among live surfaces, and
    reserved within a bounded number of probes however the counter wraps. */
module RenderGenerations {
  import opened Common

  const MAX_SURFACES := 32

  function After(g: nat): nat { if g == U64_MAX then 1 else g + 1 }

  /** The first candidate: the counter, which skips zero. */
  function First(next: nat): nat { if next == 0 then 1 else next }

  /** The candidate after `n` more probes. */
  function Probe(g: nat, n: nat): nat
    decreases n
  {
    if n == 0 then g else After(Probe(g, n - 1))
  }

  lemma {:induction false} ProbeValue(g: nat, n: nat)
    requires 1 <= g <= U64_MAX && n <= MAX_SURFACES
    ensures Probe(g, n) == if g + n <= U64_MAX then g + n else g + n - U64_MAX
    decreases n
  {
    if n != 0 { ProbeValue(g, n - 1); }
  }

  /** A surface slot of the table; a fresh surface has generation zero until one is reserved. */
  datatype Surface = Surface(active: bool, generation: nat)

  predicate InUse(surfaces: seq<Surface>, g: nat) {
    g == 0 || exists i :: 0 <= i < |surfaces| && surfaces[i].active && surfaces[i].generation == g
  }

  function Generations(surfaces: seq<Surface>): set<nat> {
    set i | 0 <= i < |surfaces| && surfaces[i].active :: surfaces[i].generation
  }

  /** No more generations are live than there are surfaces. */
  lemma {:induction false} FewGenerations(surfaces: seq<Surface>)
    ensures |Generations(surfaces)| <= |surfaces|
  {
    if surfaces != [] {
      var n := |surfaces| - 1;
      var front := surfaces[..n];
      FewGenerations(front);
      var all, some := Generations(surfaces), Generations(front);
      assert all <= some + {surfaces[n].generation} by {
        forall g | g in all ensures g in some + {surfaces[n].generation} {
          var i :| 0 <= i < |surfaces| && surfaces[i].active && surfaces[i].generation == g;
          assert i < n ==> front[i] == surfaces[i];
        }
      }
      Subset(all, some + {surfaces[n].generation});
    }
  }

  lemma {:induction false} Subset(a: set<nat>, b: set<nat>)
    requires a <= b
    ensures |a| <= |b|
  {
    if a != {} {
      var x :| x in a;
      Subset(a - {x}, b - {x});
    }
  }

  predicate Live(s: Surface) { s.active && s.generation != 0 }

  /** Live generations other than zero are pairwise distinct and in range. */
  ghost predicate Distinct(surfaces: seq<Surface>) {
    && (forall i :: 0 <= i < |surfaces| ==> surfaces[i].generation <= U64_MAX)
    && (forall i, j :: 0 <= i < j < |surfaces| && Live(surfaces[i]) && Live(surfaces[j]) ==>
        surfaces[i].generation != surfaces[j].generation)
  }

  class Table {
    var surfaces: seq<Surface>
    var next: nat

    ghost predicate Valid()
      reads this
    {
      |surfaces| == MAX_SURFACES && next <= U64_MAX && Distinct(surfaces)
    }

    constructor ()
      ensures Valid() && forall i :: 0 <= i < MAX_SURFACES ==> !surfaces[i].active
    {
      surfaces := seq(MAX_SURFACES, _ => Surface(false, 0));
      next := 1;
    }

    /** Finds a free generation. At most as many generations as surfaces are live, so one of the
        thirty-three distinct candidates is free. */
    method Reserve() returns (generation: nat)
      requires Valid()
      modifies this`next
      ensures Valid() && 1 <= generation <= U64_MAX && !InUse(surfaces, generation)
      ensures next == After(generation)
      ensures exists n :: 0 <= n <= MAX_SURFACES && generation == Probe(First(old(next)), n)
    {
      var first := First(next);
      generation := first;
      var probes := 0;
      ghost var tried: set<nat> := {};
      while probes <= MAX_SURFACES
        invariant 0 <= probes <= MAX_SURFACES + 1 && |tried| == probes
        invariant probes <= MAX_SURFACES ==> generation == Probe(first, probes) && 1 <= generation <= U64_MAX
        invariant forall g :: g in tried ==> g in Generations(surfaces)
        invariant forall g :: g in tried ==> exists n :: 0 <= n < probes && g == Probe(first, n)
      {
        ProbeValue(first, probes);
        if !InUse(surfaces, generation) {
          next := After(generation);
          return;
        }
        assert generation !in tried by {
          if generation in tried {
            var n :| 0 <= n < probes && generation == Probe(first, n);
            ProbeValue(first, n);
          }
        }
        tried := tried + {generation};
        generation := After(generation);
        probes := probes + 1;
        if probes <= MAX_SURFACES { ProbeValue(first, probes); }
      }
      FewGenerations(surfaces);
      Subset(tried, Generations(surfaces));
      assert false;
    }

    /** A new surface in a free slot: active first, its generation reserved afterwards. */
    method Create() returns (slot: nat, ok: bool)
      requires Valid()
      modifies this
      ensures Valid() && (ok <==> exists i :: 0 <= i < MAX_SURFACES && !old(surfaces)[i].active)
      ensures ok ==>
        && slot < MAX_SURFACES && !old(surfaces)[slot].active && surfaces[slot].active && surfaces[slot].generation != 0
        && surfaces == old(surfaces)[slot := surfaces[slot]]
      ensures !ok ==> surfaces == old(surfaces)
    {
      slot := 0;
      while slot < MAX_SURFACES && surfaces[slot].active
        invariant 0 <= slot <= MAX_SURFACES && forall i :: 0 <= i < slot ==> surfaces[i].active
      {
        slot := slot + 1;
      }
      ok := slot < MAX_SURFACES;
      if ok {
        surfaces := surfaces[slot := Surface(true, 0)];
        var generation := Reserve();
        surfaces := surfaces[slot := Surface(true, generation)];
      }
    }

    /** A resize reserves for a candidate while the old generation is still live. */
    method Resize(slot: nat)
      requires Valid() && slot < MAX_SURFACES && surfaces[slot].active
      modifies this
      ensures Valid() && surfaces == old(surfaces)[slot := surfaces[slot]] && surfaces[slot].active
      ensures surfaces[slot].generation != 0 && surfaces[slot].generation != old(surfaces[slot].generation)
    {
      var generation := Reserve();
      surfaces := surfaces[slot := Surface(true, generation)];
    }

    method Close(slot: nat)
      requires Valid() && slot < MAX_SURFACES
      modifies this
      ensures Valid() && surfaces == old(surfaces)[slot := Surface(false, 0)]
    {
      surfaces := surfaces[slot := Surface(false, 0)];
    }
  }
}
