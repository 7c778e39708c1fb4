/** The bounded cache of certificate revocation evidence and the policy it rests on. */
module RevocationCache {
  import opened Common

  const CAPACITY := 16
  const VERSION := 0x0001_0000
  const OCSP_MAX_VALIDITY := 604800
  const CRL_MAX_VALIDITY := 2592000
  const EVIDENCE_REQUIRED: bv32 := 0x0f
  const EVIDENCE_ALL: bv32 := 0x1f
  const NONCE_VERIFIED: bv32 := 0x10
  const REQUIRE_OCSP_NONCE: bv32 := 0x01

  /** A SHA-256 digest; zero stands for the thirty-two zero bytes that are no digest. */
  type Digest = nat

  datatype Policy = Policy(
    version: nat, trustedTime: nat, maximumOcsp: nat, maximumCrl: nat, required: bv32, flags: bv32, reserved: nat)

  datatype Evidence = Evidence(
    version: nat, status: nat, source: nat, flags: bv32, thisUpdate: nat, nextUpdate: nat, producedAt: nat,
    certificate: Digest, issuer: Digest, sequence: nat, reserved: nat)

  datatype Outcome = Ok | Invalid | Unavailable | Revoked | Stale | Future | ScopeMismatch | Unsupported

  predicate PolicyValid(p: Policy) {
    && p.version == VERSION && p.trustedTime != 0
    && 0 < p.maximumOcsp <= OCSP_MAX_VALIDITY && 0 < p.maximumCrl <= CRL_MAX_VALIDITY
    && p.required & EVIDENCE_REQUIRED == EVIDENCE_REQUIRED && p.required & !EVIDENCE_ALL == 0
    && p.flags & !REQUIRE_OCSP_NONCE == 0 && p.reserved == 0
  }

  /** What the evidence says about the certificate under the policy. */
  function Validate(p: Policy, certificate: Digest, e: Evidence): Outcome {
    if !PolicyValid(p) || e.version != VERSION || e.reserved != 0 || e.sequence == 0 || certificate == 0 ||
       e.certificate == 0 || e.issuer == 0 || e.flags & !EVIDENCE_ALL != 0 then Invalid
    else if certificate != e.certificate then ScopeMismatch
    else if e.flags & p.required != p.required then Unavailable
    else if e.source == 1 && p.flags & REQUIRE_OCSP_NONCE != 0 && e.flags & NONCE_VERIFIED == 0 then Unavailable
    else if e.source != 1 && e.source != 2 then Unsupported
    else if e.thisUpdate == 0 || e.nextUpdate <= e.thisUpdate || e.producedAt < e.thisUpdate ||
            e.producedAt > e.nextUpdate ||
            e.nextUpdate - e.thisUpdate > (if e.source == 1 then p.maximumOcsp else p.maximumCrl) then Invalid
    else if p.trustedTime < e.thisUpdate || p.trustedTime < e.producedAt then Future
    else if p.trustedTime > e.nextUpdate then Stale
    else if e.status == 2 then Revoked
    else if e.status != 1 then Unavailable
    else Ok
  }

  datatype Result =
    | CacheOk | CacheInvalid | NotFound | Full | Conflict | CacheStale | CacheFuture | CacheRevoked | CacheUnavailable

  function MapOutcome(o: Outcome): Result {
    match o
    case Ok => CacheOk
    case Revoked => CacheRevoked
    case Stale => CacheStale
    case Future => CacheFuture
    case Unavailable => CacheUnavailable
    case _ => CacheInvalid
  }

  datatype Key = Key(certificate: Digest, issuer: Digest)

  datatype Held = Held(key: Key, evidence: Evidence)

  /** A slot is empty or holds evidence under its key. */
  type Slot = Option<Held>

  function Active(slots: seq<Slot>): nat {
    if slots == [] then 0 else (if slots[0].Some? then 1 else 0) + Active(slots[1..])
  }

  lemma {:induction false} ActiveUpdate(slots: seq<Slot>, i: nat, s: Slot)
    requires i < |slots| && s.Some?
    ensures Active(slots[i := s]) == Active(slots) + if slots[i].Some? then 0 else 1
  {
    if i == 0 {
      assert slots[i := s][1..] == slots[1..];
    } else {
      ActiveUpdate(slots[1..], i - 1, s);
      assert slots[i := s][1..] == slots[1..][i - 1 := s];
    }
  }

  predicate SlotValid(s: Slot, next: nat) {
    s.Some? ==>
      && s.value.key.certificate != 0 && s.value.key.issuer != 0
      && s.value.evidence.version == VERSION
      && s.value.key == Key(s.value.evidence.certificate, s.value.evidence.issuer)
      && s.value.evidence.sequence != 0 && (next != U64_MAX ==> s.value.evidence.sequence < next)
  }

  /** The consistency test every call begins with. */
  predicate CacheValid(slots: seq<Slot>, activeCount: nat, next: nat, generation: nat) {
    && generation != 0 && next != 0 && activeCount <= CAPACITY && |slots| == CAPACITY
    && (forall i :: 0 <= i < |slots| ==> SlotValid(slots[i], next))
    && activeCount == Active(slots)
  }

  // What has been accepted so far.

  predicate Resident(slots: seq<Slot>, i: nat, key: Key) {
    i < |slots| && slots[i].Some? && slots[i].value.key == key
  }

  ghost predicate Unique(slots: seq<Slot>) {
    forall i, j :: 0 <= i < j < |slots| && slots[i].Some? && slots[j].Some? ==> slots[i].value.key != slots[j].value.key
  }

  /** Every slot holds its pair's last accepted evidence. */
  ghost predicate Honest(slots: seq<Slot>, accepted: map<Key, Evidence>) {
    forall i :: 0 <= i < |slots| && slots[i].Some? ==>
      slots[i].value.key in accepted && accepted[slots[i].value.key] == slots[i].value.evidence
  }

  /** A pair that was accepted and is not resident was pushed out of a full cache by evidence at
      least as new as its own, and so is everything that stayed. */
  ghost predicate PushedOut(slots: seq<Slot>, sequence: nat) {
    forall i :: 0 <= i < |slots| ==> slots[i].Some? && sequence <= slots[i].value.evidence.sequence
  }

  ghost predicate Remembered(slots: seq<Slot>, key: Key, e: Evidence) {
    (exists i :: Resident(slots, i, key)) || PushedOut(slots, e.sequence)
  }

  ghost predicate History(slots: seq<Slot>, accepted: map<Key, Evidence>) {
    && Unique(slots) && Honest(slots, accepted)
    && (forall key :: key in accepted ==> Remembered(slots, key, accepted[key]))
  }

  /** The slot of least sequence number, as the loop finds it. */
  ghost predicate Oldest(slots: seq<Slot>, oldest: nat) {
    && oldest < |slots| && slots[oldest].Some?
    && (forall i :: 0 <= i < |slots| && slots[i].Some? ==>
          slots[oldest].value.evidence.sequence <= slots[i].value.evidence.sequence)
  }

  /** Where evidence for a pair may be stored: in the pair's own slot, in an empty slot when the pair is
      not resident, or over the oldest of a full cache. */
  ghost predicate MayStore(slots: seq<Slot>, i: nat, key: Key, e: Evidence) {
    && i < |slots|
    && (|| (Resident(slots, i, key) && slots[i].value.evidence.sequence <= e.sequence)
        || ((forall j :: 0 <= j < |slots| ==> !Resident(slots, j, key)) &&
            (slots[i].None? ||
             ((forall j :: 0 <= j < |slots| ==> slots[j].Some?) && Oldest(slots, i) &&
              slots[i].value.evidence.sequence < e.sequence))))
  }

  /** Sound evidence that is newer than what the cache holds for its pair, or for which there is room
      or something older to give way. */
  ghost predicate Welcome(slots: seq<Slot>, next: nat, generation: nat, policy: Policy, key: Key, e: Evidence) {
    && PolicyValid(policy) && key.certificate != 0 && key.issuer == e.issuer != 0
    && (Validate(policy, key.certificate, e) == Ok || Validate(policy, key.certificate, e) == Revoked)
    && next != U64_MAX && generation != U64_MAX
    && exists i: nat :: MayStore(slots, i, key, e) &&
         (Resident(slots, i, key) ==> slots[i].value.evidence.sequence < e.sequence)
  }

  /** Sound evidence that the cache already holds, to the last field. */
  ghost predicate Known(slots: seq<Slot>, policy: Policy, key: Key, e: Evidence) {
    && PolicyValid(policy) && key.certificate != 0 && key.issuer == e.issuer != 0
    && (Validate(policy, key.certificate, e) == Ok || Validate(policy, key.certificate, e) == Revoked)
    && exists i: nat :: Resident(slots, i, key) && slots[i].value.evidence == e
  }

  /** Storing there keeps the history, and never goes back. */
  lemma StoreKeepsHistory(slots: seq<Slot>, accepted: map<Key, Evidence>, i: nat, key: Key, e: Evidence)
    requires History(slots, accepted) && MayStore(slots, i, key, e)
    ensures History(slots[i := Some(Held(key, e))], accepted[key := e])
    ensures key in accepted ==> accepted[key].sequence <= e.sequence
  {
    var slots', accepted' := slots[i := Some(Held(key, e))], accepted[key := e];
    assert Resident(slots', i, key);
    assert forall j :: 0 <= j < |slots| && j != i ==> slots'[j] == slots[j] && !Resident(slots, j, key);
    forall a, b | 0 <= a < b < |slots'| && slots'[a].Some? && slots'[b].Some?
      ensures slots'[a].value.key != slots'[b].value.key
    {
      assert a != i ==> !Resident(slots, a, key);
      assert b != i ==> !Resident(slots, b, key);
    }
    if key in accepted && !Resident(slots, i, key) {
      assert Remembered(slots, key, accepted[key]);
      assert PushedOut(slots, accepted[key].sequence);
      assert slots[i].Some?;
    }
    forall other | other in accepted' ensures Remembered(slots', other, accepted'[other]) {
      if other != key {
        assert Remembered(slots, other, accepted[other]);
        if j :| Resident(slots, j, other) {
          if j != i { assert Resident(slots', j, other); } else { assert accepted[other] == slots[i].value.evidence; }
        }
      }
    }
  }

  function NextSequence(next: nat, sequence: nat): nat {
    if sequence < next then next else if sequence == U64_MAX then U64_MAX else sequence + 1
  }

  lemma StoreKeepsValid(slots: seq<Slot>, count: nat, next: nat, generation: nat, i: nat, key: Key, e: Evidence)
    requires CacheValid(slots, count, next, generation) && i < |slots|
    requires key == Key(e.certificate, e.issuer) && key.certificate != 0 && key.issuer != 0
    requires e.version == VERSION && 0 < e.sequence <= U64_MAX && next != U64_MAX
    ensures CacheValid(slots[i := Some(Held(key, e))], count + (if slots[i].None? then 1 else 0),
                       NextSequence(next, e.sequence), generation + 1)
  {
    var slots', next' := slots[i := Some(Held(key, e))], NextSequence(next, e.sequence);
    ActiveUpdate(slots, i, Some(Held(key, e)));
    ActiveBound(slots');
    forall k | 0 <= k < |slots'| ensures SlotValid(slots'[k], next') {
      assert SlotValid(slots[k], next);
    }
  }

  class Cache {
    const slots: array<Slot>
    var activeCount: nat
    var nextSequence: nat
    var generation: nat
    /** The evidence last accepted for each pair. */
    ghost var accepted: map<Key, Evidence>

    ghost predicate Valid()
      reads this, slots
    {
      slots.Length == CAPACITY && CacheValid(slots[..], activeCount, nextSequence, generation) &&
        History(slots[..], accepted)
    }

    constructor (generation: nat)
      requires generation != 0
      ensures Valid() && fresh(slots) && accepted == map[]
    {
      slots := new Slot[CAPACITY](_ => None);
      activeCount, nextSequence, this.generation, accepted := 0, 1, generation, map[];
      new;
      assert slots[..] == seq(CAPACITY, _ => None);
      NoneActive(CAPACITY);
    }

    /** The consistency test. */
    method Check() returns (ok: bool)
      requires slots.Length == CAPACITY
      ensures ok <==> CacheValid(slots[..], activeCount, nextSequence, generation)
    {
      if generation == 0 || activeCount > CAPACITY || nextSequence == 0 { return false; }
      var count, i := 0, 0;
      assert slots[..][0..] == slots[..];
      while i < CAPACITY
        invariant 0 <= i <= CAPACITY && count + Active(slots[..][i..]) == Active(slots[..])
        invariant forall k :: 0 <= k < i ==> SlotValid(slots[k], nextSequence)
      {
        if !SlotValid(slots[i], nextSequence) {
          assert !SlotValid(slots[..][i], nextSequence);
          return false;
        }
        assert slots[..][i..][1..] == slots[..][i + 1..];
        if slots[i].Some? { count := count + 1; }
        i := i + 1;
      }
      assert slots[..][CAPACITY..] == [];
      ok := count == activeCount;
    }

    /** Looks for the pair; failing that, for the first empty slot and the oldest evidence. */
    method Select(key: Key) returns (selected: nat, matched: bool, oldest: nat, oldestSequence: nat)
      requires slots.Length == CAPACITY
      ensures matched ==> Resident(slots[..], selected, key)
      ensures !matched ==> forall j :: 0 <= j < CAPACITY ==> !Resident(slots[..], j, key)
      ensures !matched ==> selected <= CAPACITY && (selected < CAPACITY ==> slots[selected].None?)
      ensures !matched && selected == CAPACITY ==> forall j :: 0 <= j < CAPACITY ==> slots[j].Some?
      ensures !matched ==> oldest <= CAPACITY
      ensures !matched && oldest < CAPACITY ==>
        Oldest(slots[..], oldest) && oldestSequence == slots[oldest].value.evidence.sequence
      ensures !matched && oldest == CAPACITY ==>
        forall j :: 0 <= j < CAPACITY && slots[j].Some? ==> U64_MAX <= slots[j].value.evidence.sequence
    {
      selected, matched, oldest, oldestSequence := CAPACITY, false, CAPACITY, U64_MAX;
      var i := 0;
      while i < CAPACITY
        invariant 0 <= i <= CAPACITY && selected <= CAPACITY && oldest <= CAPACITY
        invariant forall j :: 0 <= j < i ==> !Resident(slots[..], j, key)
        invariant selected < CAPACITY ==> slots[selected].None?
        invariant selected == CAPACITY ==> forall j :: 0 <= j < i ==> slots[j].Some?
        invariant oldest == CAPACITY ==> oldestSequence == U64_MAX
        invariant oldest < CAPACITY ==> slots[oldest].Some? && oldestSequence == slots[oldest].value.evidence.sequence
        invariant forall j :: 0 <= j < i && slots[j].Some? ==> oldestSequence <= slots[j].value.evidence.sequence
      {
        if slots[i].Some? && slots[i].value.key == key {
          return i, true, oldest, oldestSequence;
        }
        if slots[i].None? && selected == CAPACITY { selected := i; }
        if slots[i].Some? && slots[i].value.evidence.sequence < oldestSequence {
          oldest, oldestSequence := i, slots[i].value.evidence.sequence;
        }
        i := i + 1;
      }
    }

    /** Puts the evidence into slot `i`. */
    method Store(i: nat, key: Key, e: Evidence)
      requires Valid() && i < slots.Length && MayStore(slots[..], i, key, e)
      requires key == Key(e.certificate, e.issuer) && key.certificate != 0 && key.issuer != 0
      requires e.version == VERSION && 0 < e.sequence <= U64_MAX && nextSequence != U64_MAX
      modifies this, slots
      ensures Valid() && accepted == old(accepted)[key := e]
      ensures key in old(accepted) ==> old(accepted)[key].sequence <= e.sequence
    {
      hide History, MayStore, CacheValid;
      ghost var before := slots[..];
      StoreKeepsHistory(before, accepted, i, key, e);
      StoreKeepsValid(before, activeCount, nextSequence, generation, i, key, e);
      if slots[i].None? { activeCount := activeCount + 1; }
      slots[i] := Some(Held(key, e));
      accepted := accepted[key := e];
      nextSequence := NextSequence(nextSequence, e.sequence);
      generation := generation + 1;
      assert slots[..] == before[i := Some(Held(key, e))];
    }

    /** Stores evidence, unless the policy, a newer entry or a full cache of newer entries says no. What
        was accepted for a pair never gives way to older evidence, not even after it was pushed out. */
    method Put(policy: Policy, certificate: Digest, issuer: Digest, e: Evidence) returns (r: Result)
      requires Valid() && e.sequence <= U64_MAX
      modifies this, slots
      ensures Valid()
      ensures r == CacheOk || r == CacheRevoked ==>
        && r == MapOutcome(Validate(policy, certificate, e)) && issuer == e.issuer
        && accepted == old(accepted)[Key(certificate, issuer) := e]
      ensures r != CacheOk && r != CacheRevoked ==> accepted == old(accepted) && slots[..] == old(slots[..])
      ensures (r == CacheOk || r == CacheRevoked) <==>
        old(Welcome(slots[..], nextSequence, generation, policy, Key(certificate, issuer), e) ||
            Known(slots[..], policy, Key(certificate, issuer), e))
      ensures forall key :: key in old(accepted) ==>
        key in accepted && old(accepted)[key].sequence <= accepted[key].sequence
    {
      hide CacheValid;
      var ok := Check();
      if !ok || !PolicyValid(policy) || certificate == 0 || issuer == 0 || issuer != e.issuer { return CacheInvalid; }
      var outcome := Validate(policy, certificate, e);
      if outcome != Ok && outcome != Revoked { return MapOutcome(outcome); }
      var key := Key(certificate, issuer);
      var selected, matched, oldest, oldestSequence := Select(key);
      if matched {
        assert forall i: nat :: Resident(slots[..], i, key) ==> i == selected;
        if e.sequence < slots[selected].value.evidence.sequence { return Conflict; }
        if e.sequence == slots[selected].value.evidence.sequence {
          if slots[selected].value.evidence != e { return Conflict; }
          AlreadyAccepted(slots[..], accepted, selected);
          return if outcome == Revoked then CacheRevoked else CacheOk;
        }
      } else if selected == CAPACITY {
        if oldest == CAPACITY || e.sequence <= oldestSequence { return Full; }
        selected := oldest;
      }
      if nextSequence == U64_MAX || generation == U64_MAX { return CacheInvalid; }
      Store(selected, key, e);
      r := if outcome == Revoked then CacheRevoked else CacheOk;
    }

    /** The evidence of a resident pair, judged under the policy of today. */
    method Lookup(policy: Policy, certificate: Digest, issuer: Digest) returns (r: Result, found: Option<Evidence>)
      requires Valid()
      ensures Valid()
      ensures !PolicyValid(policy) || certificate == 0 || issuer == 0 ==> r == CacheInvalid && found.None?
      ensures PolicyValid(policy) && certificate != 0 && issuer != 0 ==>
        var key := Key(certificate, issuer);
        if exists i :: Resident(slots[..], i, key) then
          && key in accepted && r == MapOutcome(Validate(policy, certificate, accepted[key]))
          && (found == if r == CacheOk || r == CacheRevoked then Some(accepted[key]) else None)
        else r == NotFound && found.None?
    {
      var ok := Check();
      found := None;
      if !ok || !PolicyValid(policy) || certificate == 0 || issuer == 0 { return CacheInvalid, None; }
      var key := Key(certificate, issuer);
      var i := 0;
      while i < CAPACITY
        invariant 0 <= i <= CAPACITY && found.None?
        invariant forall j :: 0 <= j < i ==> !Resident(slots[..], j, key)
      {
        if slots[i].Some? && slots[i].value.key == key {
          assert Resident(slots[..], i, key);
          var outcome := Validate(policy, certificate, slots[i].value.evidence);
          if outcome == Ok || outcome == Revoked { found := Some(slots[i].value.evidence); }
          return MapOutcome(outcome), found;
        }
        i := i + 1;
      }
      r := NotFound;
    }
  }

  lemma AlreadyAccepted(slots: seq<Slot>, accepted: map<Key, Evidence>, i: nat)
    requires History(slots, accepted) && i < |slots| && slots[i].Some?
    ensures slots[i].value.key in accepted && accepted == accepted[slots[i].value.key := slots[i].value.evidence]
  {
  }

  lemma {:induction false} NoneActive(n: nat)
    ensures Active(seq(n, _ => None)) == 0
  {
    if n != 0 {
      NoneActive(n - 1);
      var empty: seq<Slot> := seq(n, _ => None);
      assert empty[1..] == seq(n - 1, _ => None);
    }
  }

  lemma {:induction false} ActiveBound(slots: seq<Slot>)
    ensures Active(slots) <= |slots|
  {
    if slots != [] { ActiveBound(slots[1..]); }
  }
}
