/** Demultiplexing one shared input ring into a stream per surface. Records of other surfaces met on
    the way are parked in a bounded table; nothing is lost, duplicated or reordered. */
module InputDemux {
  import opened Common

  const BATCH_CAPACITY := 8

  datatype Record = Record(surface: nat, generation: nat, sequence: nat, valid: bool, event: nat)

  predicate Wanted(r: Record, s: nat, g: nat) { r.surface == s && r.generation == g }

  /** The records meant for a surface, in order. */
  function Stream(rs: seq<Record>, s: nat, g: nat): seq<Record> {
    if rs == [] then []
    else if Wanted(rs[0], s, g) then [rs[0]] + Stream(rs[1..], s, g)
    else Stream(rs[1..], s, g)
  }

  lemma {:induction false} StreamAppend(a: seq<Record>, b: seq<Record>, s: nat, g: nat)
    ensures Stream(a + b, s, g) == Stream(a, s, g) + Stream(b, s, g)
  {
    if a == [] {
      assert a + b == b;
    } else {
      StreamAppend(a[1..], b, s, g);
      assert (a + b)[1..] == a[1..] + b;
    }
  }

  lemma {:induction false} StreamOnlyWanted(rs: seq<Record>, s: nat, g: nat)
    ensures forall k :: 0 <= k < |Stream(rs, s, g)| ==> Wanted(Stream(rs, s, g)[k], s, g) && Stream(rs, s, g)[k] in rs
  {
    if rs != [] { StreamOnlyWanted(rs[1..], s, g); }
  }

  predicate Increasing(rs: seq<Record>) {
    forall i, j :: 0 <= i < j < |rs| ==> rs[i].sequence < rs[j].sequence
  }

  predicate Within(rs: seq<Record>, last: nat) {
    forall i :: 0 <= i < |rs| ==> rs[i].sequence <= last
  }

  /** Current records are queued with increasing sequences. */
  predicate Ordered(queue: seq<Record>, g: nat, last: nat) {
    && (forall i :: 0 <= i < |queue| && queue[i].generation == g ==> queue[i].sequence <= last)
    && (forall i, j :: 0 <= i < j < |queue| && queue[i].generation == g == queue[j].generation ==>
        queue[i].sequence < queue[j].sequence)
  }

  lemma {:induction false} OrderedStream(queue: seq<Record>, s: nat, g: nat, last: nat)
    requires Ordered(queue, g, last)
    ensures Increasing(Stream(queue, s, g)) && Within(Stream(queue, s, g), last)
  {
    if queue != [] {
      OrderedStream(queue[1..], s, g, last);
      StreamOnlyWanted(queue[1..], s, g);
    }
  }

  lemma {:induction false} StreamNone(queue: seq<Record>, s: nat, g: nat)
    requires forall i :: 0 <= i < |queue| ==> queue[i].generation != g
    ensures Stream(queue, s, g) == []
  {
    if queue != [] { StreamNone(queue[1..], s, g); }
  }

  // The table of parked records.

  type Slots = seq<Option<Record>>

  predicate Keeps(slot: Option<Record>, s: nat, g: nat) { slot.Some? && Wanted(slot.value, s, g) }

  /** The current records of a surface in the table are exactly those of `parked`, once each. */
  ghost predicate Matches(slots: Slots, s: nat, g: nat, parked: seq<Record>) {
    && (forall k :: 0 <= k < |parked| ==> Wanted(parked[k], s, g) && Some(parked[k]) in slots)
    && (forall i :: 0 <= i < |slots| && Keeps(slots[i], s, g) ==> slots[i].value in parked)
    && (forall i, j :: 0 <= i < j < |slots| && Keeps(slots[i], s, g) && Keeps(slots[j], s, g) ==>
        slots[i] != slots[j])
  }

  lemma Park(slots: Slots, i: nat, r: Record, s: nat, g: nat, parked: seq<Record>)
    requires Matches(slots, s, g, parked) && i < |slots| && slots[i].None?
    requires Wanted(r, s, g) && r !in parked
    ensures Matches(slots[i := Some(r)], s, g, parked + [r])
  {
    var after := slots[i := Some(r)];
    forall k | 0 <= k < |parked| + 1 ensures Some((parked + [r])[k]) in after {
      if k < |parked| {
        var j :| 0 <= j < |slots| && slots[j] == Some(parked[k]);
        assert after[j] == slots[j];
      } else {
        assert after[i] == Some(r);
      }
    }
  }

  lemma SlotOf(slots: Slots, i: nat, change: Option<Record>, s: nat, g: nat, parked: seq<Record>)
    requires Matches(slots, s, g, parked) && i < |slots|
    requires !Keeps(slots[i], s, g) && !Keeps(change, s, g)
    ensures Matches(slots[i := change], s, g, parked)
  {
    var after := slots[i := change];
    forall k | 0 <= k < |parked| ensures Some(parked[k]) in after {
      var j :| 0 <= j < |slots| && slots[j] == Some(parked[k]);
      assert after[j] == slots[j];
    }
  }

  lemma Unpark(slots: Slots, i: nat, s: nat, g: nat, parked: seq<Record>)
    requires Matches(slots, s, g, parked) && Increasing(parked)
    requires i < |slots| && parked != [] && slots[i] == Some(parked[0])
    ensures Matches(slots[i := None], s, g, parked[1..])
  {
    var after := slots[i := None];
    forall k | 0 <= k < |parked| - 1 ensures Some(parked[1..][k]) in after {
      var j :| 0 <= j < |slots| && slots[j] == Some(parked[k + 1]);
      assert after[j] == slots[j];
    }
    forall j | 0 <= j < |after| && Keeps(after[j], s, g) ensures after[j].value in parked[1..] {
      assert slots[j].value in parked && slots[j] != slots[i];
      var k :| 0 <= k < |parked| && parked[k] == slots[j].value;
      assert parked[1..][k - 1] == slots[j].value;
    }
  }

  /** A slot with the least sequence of a surface, when any slot has one below the search's start. */
  ghost predicate Oldest(slots: Slots, s: nat, i: nat) {
    if i < |slots| then
      && slots[i].Some? && slots[i].value.surface == s && slots[i].value.sequence < U64_MAX
      && forall j :: 0 <= j < |slots| && slots[j].Some? && slots[j].value.surface == s ==>
           slots[i].value.sequence <= slots[j].value.sequence
    else
      forall j :: 0 <= j < |slots| && slots[j].Some? && slots[j].value.surface == s ==>
        slots[j].value.sequence >= U64_MAX
  }

  /** A search finds a record of a surface exactly when one is parked with a sequence below the
      largest; a record carrying the largest sequence is overlooked. */
  lemma SearchFinds(slots: Slots, s: nat, i: nat)
    requires Oldest(slots, s, i)
    ensures i < |slots| <==>
            exists j :: 0 <= j < |slots| && slots[j].Some? && slots[j].value.surface == s &&
                        slots[j].value.sequence < U64_MAX
  {
  }

  /** The oldest parked record is the head of the parked stream. */
  lemma OldestIsFirst(slots: Slots, s: nat, g: nat, parked: seq<Record>, i: nat)
    requires Matches(slots, s, g, parked) && Increasing(parked) && Oldest(slots, s, i)
    requires i < |slots| && Keeps(slots[i], s, g)
    ensures parked != [] && slots[i] == Some(parked[0])
  {
    var k :| 0 <= k < |parked| && parked[k] == slots[i].value;
    var j :| 0 <= j < |slots| && slots[j] == Some(parked[0]);
  }

  lemma NoOldestNoneParked(slots: Slots, s: nat, g: nat, parked: seq<Record>, i: nat, last: nat)
    requires Matches(slots, s, g, parked) && Within(parked, last) && last < U64_MAX
    requires Oldest(slots, s, i) && i >= |slots|
    ensures parked == []
  {
    assert parked != [] ==> Some(parked[0]) in slots && parked[0].sequence <= last;
  }

  // The account kept for one surface.

  datatype Account = Account(delivered: seq<Record>, parked: seq<Record>, produced: seq<Record>)

  /** Delivered, then parked, then still queued records are all that was produced, in order. */
  ghost predicate Tidy(slots: Slots, queue: seq<Record>, s: nat, g: nat, last: nat, a: Account) {
    && Matches(slots, s, g, a.parked)
    && Increasing(a.parked + Stream(queue, s, g)) && Within(a.parked + Stream(queue, s, g), last)
    && a.delivered + a.parked + Stream(queue, s, g) == a.produced
  }

  lemma TidyPrefix(a: seq<Record>, b: seq<Record>)
    requires Increasing(a + b)
    ensures Increasing(a)
  {
    forall i, j | 0 <= i < j < |a| ensures a[i].sequence < a[j].sequence {
      assert (a + b)[i] == a[i] && (a + b)[j] == a[j];
    }
  }

  lemma WithinPrefix(a: seq<Record>, b: seq<Record>, last: nat)
    requires Within(a + b, last)
    ensures Within(a, last)
  {
    forall i | 0 <= i < |a| ensures a[i].sequence <= last { assert (a + b)[i] == a[i]; }
  }

  /** A record that is not for this surface is passed over. */
  lemma PassOver(slots: Slots, queue: seq<Record>, s: nat, g: nat, last: nat, a: Account)
    requires Tidy(slots, queue, s, g, last, a) && queue != [] && !Wanted(queue[0], s, g)
    ensures Tidy(slots, queue[1..], s, g, last, a)
  {
  }

  lemma SlotChange(slots: Slots, i: nat, change: Option<Record>, queue: seq<Record>, s: nat, g: nat, last: nat,
      a: Account)
    requires Tidy(slots, queue, s, g, last, a)
    requires i < |slots| && !Keeps(slots[i], s, g) && !Keeps(change, s, g)
    ensures Tidy(slots[i := change], queue, s, g, last, a)
  {
    SlotOf(slots, i, change, s, g, a.parked);
  }

  /** The next record of a surface moves from the queue to the end of its parked stream. */
  lemma ParkNext(slots: Slots, i: nat, queue: seq<Record>, s: nat, g: nat, last: nat, a: Account)
    requires Tidy(slots, queue, s, g, last, a) && queue != [] && Wanted(queue[0], s, g)
    requires i < |slots| && slots[i].None?
    ensures Tidy(slots[i := Some(queue[0])], queue[1..], s, g, last, a.(parked := a.parked + [queue[0]]))
  {
    var r, rest := queue[0], Stream(queue[1..], s, g);
    assert Stream(queue, s, g) == [r] + rest;
    assert a.parked + ([r] + rest) == a.parked + [r] + rest;
    assert a.delivered + a.parked + ([r] + rest) == a.delivered + (a.parked + [r]) + rest;
    var all := a.parked + Stream(queue, s, g);
    assert r !in a.parked by {
      forall k | 0 <= k < |a.parked| ensures a.parked[k] != r {
        assert all[k] == a.parked[k] && all[|a.parked|] == r;
      }
    }
    Park(slots, i, r, s, g, a.parked);
  }

  lemma DeliverParked(slots: Slots, i: nat, queue: seq<Record>, s: nat, g: nat, last: nat, a: Account)
    requires Tidy(slots, queue, s, g, last, a) && Oldest(slots, s, i) && i < |slots| && Keeps(slots[i], s, g)
    ensures a.parked != [] && slots[i] == Some(a.parked[0])
    ensures Tidy(slots[i := None], queue, s, g, last,
                 Account(a.delivered + [a.parked[0]], a.parked[1..], a.produced))
  {
    TidyPrefix(a.parked, Stream(queue, s, g));
    OldestIsFirst(slots, s, g, a.parked, i);
    Unpark(slots, i, s, g, a.parked);
    var all := a.parked + Stream(queue, s, g);
    assert a.parked[1..] + Stream(queue, s, g) == all[1..];
    assert a.parked == [a.parked[0]] + a.parked[1..];
    assert a.delivered + a.parked == a.delivered + [a.parked[0]] + a.parked[1..];
  }

  lemma DeliverQueued(slots: Slots, queue: seq<Record>, s: nat, g: nat, last: nat, a: Account)
    requires Tidy(slots, queue, s, g, last, a) && queue != [] && Wanted(queue[0], s, g) && a.parked == []
    ensures Tidy(slots, queue[1..], s, g, last, a.(delivered := a.delivered + [queue[0]]))
  {
    var r, rest := queue[0], Stream(queue[1..], s, g);
    assert Stream(queue, s, g) == [r] + rest;
    assert a.parked + Stream(queue, s, g) == [r] + rest;
    assert a.parked + rest == rest == ([r] + rest)[1..];
    assert a.delivered + a.parked + ([r] + rest) == a.delivered + [r] + a.parked + rest;
  }

  /** A new record joins the end of the ring. */
  lemma Arrive(slots: Slots, queue: seq<Record>, r: Record, s: nat, g: nat, last: nat, a: Account)
    requires Tidy(slots, queue, s, g, last, a) && (r.generation == g ==> last < r.sequence)
    ensures Tidy(slots, queue + [r], s, g, if r.generation == g then r.sequence else last,
                 a.(produced := a.produced + Stream([r], s, g)))
  {
    StreamAppend(queue, [r], s, g);
    var all := a.parked + Stream(queue, s, g);
    assert a.parked + Stream(queue + [r], s, g) == all + Stream([r], s, g);
    assert a.delivered + a.parked + Stream(queue + [r], s, g) == a.produced + Stream([r], s, g);
  }

  // All accounts together.

  type Accounts = map<nat, Account>

  ghost predicate AllTidy(slots: Slots, queue: seq<Record>, g: nat, last: nat, m: Accounts) {
    forall s :: s in m ==> Tidy(slots, queue, s, g, last, m[s])
  }

  predicate Placed(slots: Slots, surfaces: set<nat>) {
    forall i :: 0 <= i < |slots| && slots[i].Some? ==> slots[i].value.surface in surfaces
  }

  ghost predicate Sound(slots: Slots, queue: seq<Record>, g: nat, last: nat, m: Accounts) {
    Ordered(queue, g, last) && Placed(slots, m.Keys) && AllTidy(slots, queue, g, last, m)
  }

  lemma OrderedRest(queue: seq<Record>, g: nat, last: nat)
    requires Ordered(queue, g, last) && queue != []
    ensures Ordered(queue[1..], g, last)
  {
  }

  lemma QueueStep(batch: seq<Record>, index: nat, ring: seq<Record>)
    requires index < |batch|
    ensures var queue := batch[index..] + ring;
            queue != [] && queue[0] == batch[index] && queue[1..] == batch[index + 1..] + ring
  {
  }

  /** Nothing was delivered and nothing forgotten. */
  ghost predicate Kept(before: Accounts, after: Accounts) {
    && before.Keys == after.Keys
    && forall s :: s in before ==>
         after[s].delivered == before[s].delivered && after[s].produced == before[s].produced
  }

  /** One more record was delivered to one surface, and nothing else happened. */
  ghost predicate Delivers(before: Accounts, after: Accounts, s: nat, r: Record) {
    && before.Keys == after.Keys && s in before
    && after[s].delivered == before[s].delivered + [r]
    && (forall x :: x in before ==> after[x].produced == before[x].produced)
    && forall x :: x in before && x != s ==> after[x].delivered == before[x].delivered
  }

  lemma KeptThenDelivers(a: Accounts, b: Accounts, c: Accounts, s: nat, r: Record)
    requires Kept(a, b) && Delivers(b, c, s, r)
    ensures Delivers(a, c, s, r)
  {
  }

  lemma KeptTwice(a: Accounts, b: Accounts, c: Accounts)
    requires Kept(a, b) && Kept(b, c)
    ensures Kept(a, c)
  {
  }

  lemma AllPassOver(slots: Slots, queue: seq<Record>, g: nat, last: nat, m: Accounts)
    requires Sound(slots, queue, g, last, m) && queue != []
    requires queue[0].generation == g ==> queue[0].surface !in m
    ensures Sound(slots, queue[1..], g, last, m)
  {
    OrderedRest(queue, g, last);
    forall s | s in m ensures Tidy(slots, queue[1..], s, g, last, m[s]) {
      PassOver(slots, queue, s, g, last, m[s]);
    }
  }

  lemma AllPark(slots: Slots, i: nat, queue: seq<Record>, g: nat, last: nat, m: Accounts, after: Accounts)
    requires Sound(slots, queue, g, last, m) && queue != []
    requires queue[0].generation == g && queue[0].surface in m && i < |slots| && slots[i].None?
    requires after == m[queue[0].surface := m[queue[0].surface].(parked := m[queue[0].surface].parked + [queue[0]])]
    ensures Sound(slots[i := Some(queue[0])], queue[1..], g, last, after) && Kept(m, after)
  {
    OrderedRest(queue, g, last);
    var r := queue[0];
    forall s | s in after ensures Tidy(slots[i := Some(r)], queue[1..], s, g, last, after[s]) {
      if s == r.surface {
        ParkNext(slots, i, queue, s, g, last, m[s]);
      } else {
        SlotChange(slots, i, Some(r), queue, s, g, last, m[s]);
        PassOver(slots[i := Some(r)], queue, s, g, last, m[s]);
      }
    }
  }

  lemma AllDeliverQueued(slots: Slots, queue: seq<Record>, g: nat, last: nat, m: Accounts, after: Accounts)
    requires Sound(slots, queue, g, last, m) && queue != []
    requires queue[0].generation == g && queue[0].surface in m && m[queue[0].surface].parked == []
    requires after == m[queue[0].surface :=
      m[queue[0].surface].(delivered := m[queue[0].surface].delivered + [queue[0]])]
    ensures Sound(slots, queue[1..], g, last, after) && Delivers(m, after, queue[0].surface, queue[0])
  {
    OrderedRest(queue, g, last);
    forall s | s in after ensures Tidy(slots, queue[1..], s, g, last, after[s]) {
      if s == queue[0].surface {
        DeliverQueued(slots, queue, s, g, last, m[s]);
      } else {
        PassOver(slots, queue, s, g, last, m[s]);
      }
    }
  }

  lemma AllDeliverParked(slots: Slots, i: nat, queue: seq<Record>, g: nat, last: nat, m: Accounts, s: nat,
      after: Accounts)
    requires Sound(slots, queue, g, last, m) && s in m
    requires Oldest(slots, s, i) && i < |slots| && Keeps(slots[i], s, g)
    requires m[s].parked != [] ==>
               after == m[s := Account(m[s].delivered + [m[s].parked[0]], m[s].parked[1..], m[s].produced)]
    ensures Sound(slots[i := None], queue, g, last, after) && Delivers(m, after, s, slots[i].value)
  {
    DeliverParked(slots, i, queue, s, g, last, m[s]);
    forall x | x in after ensures Tidy(slots[i := None], queue, x, g, last, after[x]) {
      if x != s { SlotChange(slots, i, None, queue, x, g, last, m[x]); }
    }
  }

  lemma AllClear(slots: Slots, i: nat, queue: seq<Record>, g: nat, last: nat, m: Accounts)
    requires Sound(slots, queue, g, last, m) && i < |slots| && slots[i].Some? && slots[i].value.generation != g
    ensures Sound(slots[i := None], queue, g, last, m)
  {
    forall s | s in m ensures Tidy(slots[i := None], queue, s, g, last, m[s]) {
      SlotChange(slots, i, None, queue, s, g, last, m[s]);
    }
  }

  /** How many slots are taken. */
  function Taken(slots: Slots): nat {
    if slots == [] then 0 else (if slots[0].Some? then 1 else 0) + Taken(slots[1..])
  }

  lemma {:induction false} TakenLess(slots: Slots, i: nat)
    requires i < |slots| && slots[i].Some?
    ensures Taken(slots[i := None]) == Taken(slots) - 1
  {
    if i == 0 {
      assert slots[i := None][1..] == slots[1..];
    } else {
      TakenLess(slots[1..], i - 1);
      assert slots[i := None][1..] == slots[1..][i - 1 := None];
    }
  }

  lemma AllArrive(slots: Slots, queue: seq<Record>, r: Record, g: nat, last: nat, m: Accounts, after: Accounts)
    requires Sound(slots, queue, g, last, m) && (r.generation == g ==> last < r.sequence)
    requires after == map s | s in m :: m[s].(produced := m[s].produced + Stream([r], s, g))
    ensures Sound(slots, queue + [r], g, if r.generation == g then r.sequence else last, after)
  {
    forall s | s in m ensures Tidy(slots, queue + [r], s, g, if r.generation == g then r.sequence else last, after[s]) {
      Arrive(slots, queue, r, s, g, last, m[s]);
    }
  }

  lemma AllRetire(slots: Slots, after: Slots, queue: seq<Record>, g: nat, last: nat, m: Accounts, gone: nat)
    requires Sound(slots, queue, g, last, m) && |after| == |slots|
    requires forall i :: 0 <= i < |slots| ==>
               after[i] == if slots[i].Some? && slots[i].value.surface == gone then None else slots[i]
    ensures Sound(after, queue, g, last, m - {gone})
  {
    forall s | s in m && s != gone ensures Tidy(after, queue, s, g, last, m[s]) {
      forall k | 0 <= k < |m[s].parked| ensures Some(m[s].parked[k]) in after {
        var j :| 0 <= j < |slots| && slots[j] == Some(m[s].parked[k]);
        assert after[j] == slots[j];
      }
    }
  }

  /** Where no record is current, every surface starts afresh. */
  lemma AllAfresh(slots: Slots, queue: seq<Record>, g: nat, surfaces: set<nat>)
    requires Placed(slots, surfaces)
    requires forall i :: 0 <= i < |slots| && slots[i].Some? ==> slots[i].value.generation != g
    requires forall i :: 0 <= i < |queue| ==> queue[i].generation != g
    ensures Sound(slots, queue, g, 0, map s | s in surfaces :: Account([], [], []))
  {
    forall s | s in surfaces ensures Tidy(slots, queue, s, g, 0, Account([], [], [])) {
      StreamNone(queue, s, g);
    }
  }

  datatype Outcome = Event(record: Record) | Empty | Unavailable | Corrupted | Drained

  class InputRing {
    /** The largest capacity the shared ring may have. */
    const ringMax: nat
    const demux: array<Option<Record>>
    var mapped: bool
    var generation: nat
    var surfaces: set<nat>
    var batch: seq<Record>
    var index: nat
    var ring: seq<Record>
    ghost var last: nat
    ghost var accounts: Accounts

    function Queue(): seq<Record>
      requires index <= |batch|
      reads this
    {
      batch[index..] + ring
    }

    ghost predicate Valid()
      reads this, demux
    {
      && demux.Length == ringMax + BATCH_CAPACITY
      && index <= |batch| <= BATCH_CAPACITY && last < U64_MAX
      && accounts.Keys == surfaces
      && Sound(demux[..], Queue(), generation, last, accounts)
    }

    constructor (ringMax: nat, generation: nat)
      ensures Valid() && fresh(demux) && surfaces == {} && mapped && ring == [] && this.generation == generation
    {
      this.ringMax, this.generation, mapped := ringMax, generation, true;
      demux := new Option<Record>[ringMax + BATCH_CAPACITY](_ => None);
      surfaces, batch, index, ring, last, accounts := {}, [], 0, [], 0, map[];
    }

    /** The compositor appends a record; current records come with increasing sequences. */
    method Produce(r: Record)
      requires Valid() && (r.generation == generation ==> last < r.sequence < U64_MAX)
      modifies this`ring, this`last, this`accounts
      ensures Valid() && ring == old(ring) + [r] && accounts.Keys == old(accounts).Keys
      ensures last == if r.generation == generation then r.sequence else old(last)
      ensures forall s :: s in accounts ==>
                && accounts[s].delivered == old(accounts)[s].delivered
                && accounts[s].produced == old(accounts)[s].produced + Stream([r], s, generation)
    {
      hide Sound, Stream;
      ghost var m := accounts;
      ghost var queue := Queue();
      accounts := map s | s in m :: m[s].(produced := m[s].produced + Stream([r], s, generation));
      AllArrive(demux[..], queue, r, generation, last, m, accounts);
      ring := ring + [r];
      assert Queue() == queue + [r];
      if r.generation == generation { last := r.sequence; }
    }

    /** A surface becomes active; what it is owed starts with the records not yet looked at. */
    method Activate(s: nat)
      requires Valid() && s !in surfaces
      modifies this`surfaces, this`accounts
      ensures Valid() && surfaces == old(surfaces) + {s}
      ensures accounts == old(accounts)[s := Account([], [], Stream(Queue(), s, generation))]
    {
      OrderedStream(Queue(), s, generation, last);
      surfaces := surfaces + {s};
      accounts := accounts[s := Account([], [], Stream(Queue(), s, generation))];
      assert [] + [] + Stream(Queue(), s, generation) == Stream(Queue(), s, generation);
    }

    /** A surface goes away, and its parked records with it. */
    method Retire(s: nat)
      requires Valid()
      modifies this`surfaces, this`accounts, demux
      ensures Valid() && surfaces == old(surfaces) - {s} && accounts == old(accounts) - {s}
    {
      hide Sound;
      ghost var slots := demux[..];
      for i := 0 to demux.Length
        modifies demux
        invariant forall j :: i <= j < demux.Length ==> demux[j] == slots[j]
        invariant forall j :: 0 <= j < i ==>
                    demux[j] == if slots[j].Some? && slots[j].value.surface == s then None else slots[j]
      {
        if demux[i].Some? && demux[i].value.surface == s { demux[i] := None; }
      }
      AllRetire(slots, demux[..], Queue(), generation, last, accounts, s);
      surfaces, accounts := surfaces - {s}, accounts - {s};
    }

    /** The compositor starts a new generation: every outstanding record is now stale. */
    method Advance(next: nat)
      requires Valid()
      requires forall i :: 0 <= i < demux.Length && demux[i].Some? ==> demux[i].value.generation != next
      requires forall i :: 0 <= i < |Queue()| ==> Queue()[i].generation != next
      modifies this`generation, this`last, this`accounts
      ensures Valid() && generation == next
      ensures accounts == map s | s in surfaces :: Account([], [], [])
    {
      hide AllTidy, Ordered;
      AllAfresh(demux[..], Queue(), next, surfaces);
      generation, last := next, 0;
      accounts := map s | s in surfaces :: Account([], [], []);
    }

    /** The ring is unmapped, with all it held. */
    method Drop()
      requires Valid()
      modifies this`mapped, this`batch, this`index, this`ring, this`last, this`accounts, demux
      ensures Valid() && !mapped && Queue() == [] && (forall i :: 0 <= i < demux.Length ==> demux[i].None?)
      ensures accounts == map s | s in surfaces :: Account([], [], [])
    {
      hide Sound;
      for i := 0 to demux.Length
        modifies demux
        invariant forall j :: 0 <= j < i ==> demux[j].None?
      {
        demux[i] := None;
      }
      mapped, batch, index, ring, last := false, [], 0, [], 0;
      AllAfresh(demux[..], Queue(), generation, surfaces);
      accounts := map s | s in surfaces :: Account([], [], []);
    }

    method FindOldest(s: nat) returns (oldest: nat)
      requires Valid()
      ensures Oldest(demux[..], s, oldest) && oldest <= demux.Length
    {
      oldest := demux.Length;
      var least := U64_MAX;
      for i := 0 to demux.Length
        invariant oldest == demux.Length || oldest < i
        invariant oldest == demux.Length ==> least == U64_MAX
        invariant oldest < i ==> demux[oldest].Some? && demux[oldest].value.surface == s
        invariant oldest < i ==> least == demux[oldest].value.sequence < U64_MAX
        invariant forall j :: 0 <= j < i && demux[j].Some? && demux[j].value.surface == s ==>
                    least <= demux[j].value.sequence
      {
        if demux[i].Some? && demux[i].value.surface == s && demux[i].value.sequence < least {
          oldest, least := i, demux[i].value.sequence;
        }
      }
    }

    method FindFree() returns (free: nat)
      ensures free <= demux.Length && (free < demux.Length ==> demux[free].None?)
      ensures free == demux.Length ==> forall j :: 0 <= j < demux.Length ==> demux[j].Some?
    {
      free := 0;
      while free < demux.Length && demux[free].Some?
        invariant free <= demux.Length && forall j :: 0 <= j < free ==> demux[j].Some?
      {
        free := free + 1;
      }
    }

    /** Looks through the batch for a record of `s`, parking records of other active surfaces. */
    method Scan(s: nat, before: nat) returns (outcome: Outcome, scanned: nat)
      requires Valid() && s in surfaces && accounts[s].parked == [] && before <= ringMax + BATCH_CAPACITY
      modifies this`index, this`accounts, demux
      ensures Valid() && before <= scanned <= ringMax + BATCH_CAPACITY
      ensures |Queue()| + scanned == |old(Queue())| + before
      ensures outcome.Event? || outcome.Empty? || outcome.Corrupted? || outcome.Drained?
      ensures outcome.Event? ==> Delivers(old(accounts), accounts, s, outcome.record)
      ensures !outcome.Event? ==> Kept(old(accounts), accounts) && accounts[s].parked == []
      ensures outcome.Empty? ==> Full() || scanned == ringMax + BATCH_CAPACITY
      ensures outcome.Corrupted? ==> index < |batch| && !batch[index].valid
      ensures outcome.Drained? ==> index == |batch| && (old(index) < |batch| ==> before < scanned)
      ensures scanned == before ==> demux[..] == old(demux[..])
    {
      hide Sound, Delivers;
      scanned := before;
      while index < |batch|
        invariant Valid() && before <= scanned <= ringMax + BATCH_CAPACITY
        invariant |Queue()| + scanned == |old(Queue())| + before && old(index) <= index
        invariant old(index) < index ==> before < scanned
        invariant scanned == before ==> demux[..] == old(demux[..])
        invariant Kept(old(accounts), accounts) && accounts[s].parked == []
        decreases |batch| - index
      {
        var r := batch[index];
        if scanned >= ringMax + BATCH_CAPACITY { return Empty, scanned; }
        if !r.valid { return Corrupted, scanned; }
        if r.generation == generation && r.surface == s {
          ghost var middle := accounts;
          Hand(s);
          KeptThenDelivers(old(accounts), middle, accounts, s, r);
          return Event(r), scanned + 1;
        }
        if r.generation != generation || r.surface !in surfaces {
          Skip();
        } else {
          var free := FindFree();
          if free == demux.Length { return Empty, scanned; }
          Put(free);
        }
        scanned := scanned + 1;
      }
      outcome := Drained;
    }

    predicate Full()
      reads this, demux
    {
      forall j :: 0 <= j < demux.Length ==> demux[j].Some?
    }

    method Hand(s: nat)
      requires Valid() && s in surfaces && accounts[s].parked == []
      requires index < |batch| && Wanted(batch[index], s, generation)
      modifies this`index, this`accounts
      ensures Valid() && index == old(index) + 1 && Delivers(old(accounts), accounts, s, batch[old(index)])
    {
      hide Sound, Delivers;
      ghost var queue, m := Queue(), accounts;
      QueueStep(batch, index, ring);
      accounts := m[s := m[s].(delivered := m[s].delivered + [queue[0]])];
      AllDeliverQueued(demux[..], queue, generation, last, m, accounts);
      index := index + 1;
    }

    method Skip()
      requires Valid() && index < |batch|
      requires batch[index].generation == generation ==> batch[index].surface !in surfaces
      modifies this`index
      ensures Valid() && index == old(index) + 1
    {
      hide Sound;
      ghost var queue := Queue();
      QueueStep(batch, index, ring);
      AllPassOver(demux[..], queue, generation, last, accounts);
      index := index + 1;
    }

    method Put(free: nat)
      requires Valid() && index < |batch| && free < demux.Length && demux[free].None?
      requires batch[index].generation == generation && batch[index].surface in surfaces
      modifies this`index, this`accounts, demux
      ensures Valid() && index == old(index) + 1 && Kept(old(accounts), accounts)
      ensures forall x :: x in accounts && x != batch[old(index)].surface ==> accounts[x] == old(accounts)[x]
    {
      hide Sound, Kept;
      ghost var queue, m, slots := Queue(), accounts, demux[..];
      var r := batch[index];
      QueueStep(batch, index, ring);
      accounts := m[r.surface := m[r.surface].(parked := m[r.surface].parked + [r])];
      AllPark(slots, free, queue, generation, last, m, accounts);
      demux[free] := Some(r);
      assert demux[..] == slots[free := Some(r)];
      index := index + 1;
    }

    /** Takes up to a batch of records off the ring; false when there are none. */
    method Refill() returns (more: bool)
      requires Valid() && index == |batch|
      modifies this`batch, this`index, this`ring
      ensures Valid() && Queue() == old(Queue())
      ensures more <==> old(ring) != []
      ensures more ==> index < |batch|
      ensures !more ==> Queue() == []
    {
      hide Sound;
      ghost var queue := Queue();
      more := ring != [];
      batch, index := [], 0;
      if more {
        var n: nat :| 1 <= n <= |ring| && n <= BATCH_CAPACITY;
        batch, ring := ring[..n], ring[n..];
      }
      assert Queue() == queue;
    }

    /** Takes a parked record out of the table. */
    method Unload(i: nat, s: nat) returns (r: Record)
      requires Valid() && s in surfaces && i < demux.Length && Oldest(demux[..], s, i)
      modifies this`accounts, demux
      ensures Valid() && r.surface == s && Taken(demux[..]) < Taken(old(demux[..]))
      ensures r.generation == generation ==> Delivers(old(accounts), accounts, s, r)
      ensures r.generation != generation ==> accounts == old(accounts)
    {
      hide Sound, Delivers;
      ghost var m, slots := accounts, demux[..];
      r := demux[i].value;
      TakenLess(slots, i);
      if r.generation == generation {
        if m[s].parked != [] {
          accounts := m[s := Account(m[s].delivered + [m[s].parked[0]], m[s].parked[1..], m[s].produced)];
        }
        AllDeliverParked(slots, i, Queue(), generation, last, m, s, accounts);
      } else {
        AllClear(slots, i, Queue(), generation, last, m);
      }
      demux[i] := None;
      assert demux[..] == slots[i := None];
    }

    /** Delivers the next record owed to a surface. Whatever the outcome, no record of any active
        surface is lost or overtaken. With no event, nothing is owed unless the table is full or
        the poll has looked at as many records as the ring and a batch can hold. */
    method Poll(s: nat, healthy: bool) returns (outcome: Outcome)
      requires Valid() && s in surfaces
      modifies this`batch, this`index, this`ring, this`accounts, demux
      ensures Valid()
      ensures outcome.Event? ==> Delivers(old(accounts), accounts, s, outcome.record)
      ensures !outcome.Event? ==> Kept(old(accounts), accounts)
      ensures outcome.Empty? ==>
                || accounts[s].delivered == accounts[s].produced
                || Full()
                || |old(Queue())| >= |Queue()| + ringMax + BATCH_CAPACITY
      ensures outcome.Unavailable? <==> !mapped
      ensures outcome.Corrupted? ==> !healthy || (index < |batch| && !batch[index].valid)
      ensures !outcome.Drained?
    {
      hide Sound, Delivers, Kept, Full;
      SameAccounts(accounts);
      if !mapped { return Unavailable; }
      var scanned := 0;
      while true
        invariant Valid() && scanned <= ringMax + BATCH_CAPACITY && Kept(old(accounts), accounts)
        invariant |Queue()| + scanned == |old(Queue())|
        decreases ringMax + BATCH_CAPACITY - scanned, Taken(demux[..]), |batch| == index
      {
        ghost var m := accounts;
        var oldest := FindOldest(s);
        if oldest < demux.Length {
          var r := Unload(oldest, s);
          if r.generation == generation {
            KeptThenDelivers(old(accounts), m, accounts, s, r);
            return Event(r);
          }
        } else {
          NoneParked(s, oldest);
          outcome, scanned := Scan(s, scanned);
          if outcome.Event? {
            KeptThenDelivers(old(accounts), m, accounts, s, outcome.record);
            return;
          }
          KeptTwice(old(accounts), m, accounts);
          if !outcome.Drained? { return; }
          if !healthy { return Corrupted; }
          var more := Refill();
          if !more {
            AllDelivered(s);
            return Empty;
          }
        }
      }
    }

    /** In every state: delivered, parked, batched and ring records, in this order, are all that
        was produced for an active surface. */
    lemma Accounted(s: nat)
      requires Valid() && s in surfaces
      ensures accounts[s].delivered + accounts[s].parked +
              Stream(batch[index..], s, generation) + Stream(ring, s, generation) == accounts[s].produced
      ensures Matches(demux[..], s, generation, accounts[s].parked)
    {
      assert Tidy(demux[..], Queue(), s, generation, last, accounts[s]);
      StreamAppend(batch[index..], ring, s, generation);
    }

    lemma NoneParked(s: nat, oldest: nat)
      requires Valid() && s in surfaces && Oldest(demux[..], s, oldest) && oldest >= demux.Length
      ensures accounts[s].parked == []
    {
      var a := accounts[s];
      assert Tidy(demux[..], Queue(), s, generation, last, a);
      WithinPrefix(a.parked, Stream(Queue(), s, generation), last);
      NoOldestNoneParked(demux[..], s, generation, a.parked, oldest, last);
    }

    lemma AllDelivered(s: nat)
      requires Valid() && s in surfaces && accounts[s].parked == [] && Queue() == []
      ensures accounts[s].delivered == accounts[s].produced
    {
      var a := accounts[s];
      assert Tidy(demux[..], Queue(), s, generation, last, a);
      assert a.delivered + [] + [] == a.delivered;
    }
  }

  lemma SameAccounts(m: Accounts)
    ensures Kept(m, m)
  {
  }

  // Whole runs.

  datatype Command = Feed(record: Record) | Ask(surface: nat, healthy: bool) | Open(id: nat) | Shut(gone: nat)

  /** Current records arrive with increasing sequences. */
  predicate Promised(script: seq<Command>, g: nat, last: nat) {
    script != [] ==>
    if script[0].Feed? && script[0].record.generation == g
    then last < script[0].record.sequence < U64_MAX && Promised(script[1..], g, script[0].record.sequence)
    else Promised(script[1..], g, last)
  }

  function Fed(script: seq<Command>): seq<Record> {
    if script == [] then []
    else Arrived(script[0]) + Fed(script[1..])
  }

  function Arrived(command: Command): seq<Record> { if command.Feed? then [command.record] else [] }

  method Obey(input: InputRing, s: nat, command: Command) returns (got: seq<Record>)
    requires input.Valid() && s in input.surfaces && command != Shut(s)
    requires command.Feed? && command.record.generation == input.generation ==>
               input.last < command.record.sequence < U64_MAX
    modifies input, input.demux
    ensures input.Valid() && s in input.surfaces && input.generation == old(input.generation)
    ensures input.last == if command.Feed? && command.record.generation == input.generation
                          then command.record.sequence else old(input.last)
    ensures input.accounts[s].delivered == old(input.accounts)[s].delivered + got
    ensures input.accounts[s].produced ==
            old(input.accounts)[s].produced + Stream(Arrived(command), s, input.generation)
  {
    hide Sound;
    got := [];
    match command
    case Feed(r) => input.Produce(r);
    case Ask(x, healthy) =>
      if x in input.surfaces {
        var outcome := input.Poll(x, healthy);
        if x == s && outcome.Event? { got := [outcome.record]; }
      }
    case Open(x) => if x !in input.surfaces { input.Activate(x); }
    case Shut(x) => input.Retire(x);
  }

  /** Over every run in which a surface stays active, the records it was given are a prefix of the
      records produced for it, and the rest is still owed to it. */
  method Run(input: InputRing, s: nat, script: seq<Command>) returns (got: seq<Record>)
    requires input.Valid() && s in input.surfaces
    requires Promised(script, input.generation, input.last) && Shut(s) !in script
    modifies input, input.demux
    ensures input.Valid() && s in input.surfaces && input.generation == old(input.generation)
    ensures input.accounts[s].delivered == old(input.accounts)[s].delivered + got
    ensures input.accounts[s].produced ==
            old(input.accounts)[s].produced + Stream(Fed(script), s, input.generation)
    decreases |script|
  {
    hide Stream, InputRing.Valid;
    got := [];
    if script == [] {
      NothingFed(s, input.generation);
    } else {
      var first := Obey(input, s, script[0]);
      var more := Run(input, s, script[1..]);
      StreamAppend(Arrived(script[0]), Fed(script[1..]), s, input.generation);
      got := first + more;
    }
  }

  lemma NothingFed(s: nat, g: nat)
    ensures Stream(Fed([]), s, g) == []
  {
  }
}
