/** The backup manifest: a canonical byte encoding guarded by a CRC-32. */
module BackupManifest {
  import opened Common

  type Bytes = seq<bv8>

  // Little-endian numbers.

  function Power(k: nat): nat { if k == 0 then 1 else 256 * Power(k - 1) }

  /** The byte with the value `n`, counted up from zero. */
  function ByteOf(n: nat): bv8
    requires n < 256
  {
    if n == 0 then 0 else Up(ByteOf(n - 1))
  }

  function Up(x: bv8): bv8 { x + 1 }

  lemma UpValue(x: bv8)
    requires x as nat < 255
    ensures Up(x) as nat == x as nat + 1
  {
  }

  lemma {:induction false} ByteValue(n: nat)
    requires n < 256
    ensures ByteOf(n) as nat == n
  {
    hide Up;
    if n != 0 {
      ByteValue(n - 1);
      UpValue(ByteOf(n - 1));
    }
  }

  lemma SameByte(a: bv8, b: bv8)
    requires a as nat == b as nat
    ensures a == b
  {
  }

  function Little(n: nat, k: nat): (b: Bytes)
    ensures |b| == k
  {
    if k == 0 then [] else [ByteOf(n % 256)] + Little(n / 256, k - 1)
  }

  function Number(b: Bytes): nat {
    if b == [] then 0 else b[0] as nat + 256 * Number(b[1..])
  }

  lemma {:induction false} NumberOfLittle(n: nat, k: nat)
    requires n < Power(k)
    ensures Number(Little(n, k)) == n
  {
    hide ByteOf;
    if k != 0 {
      ByteValue(n % 256);
      NumberOfLittle(n / 256, k - 1);
      assert Little(n, k)[1..] == Little(n / 256, k - 1);
    }
  }

  lemma {:induction false} LittleOfNumber(b: Bytes)
    ensures Number(b) < Power(|b|) && Little(Number(b), |b|) == b
  {
    hide ByteOf;
    if b != [] {
      var n := Number(b);
      LittleOfNumber(b[1..]);
      assert n % 256 == b[0] as nat && n / 256 == Number(b[1..]);
      ByteValue(n % 256);
      SameByte(ByteOf(n % 256), b[0]);
      assert b == [b[0]] + b[1..];
    }
  }

  // Packed records: fields of fixed widths, one after the other.

  function Flat(fields: seq<Bytes>): Bytes {
    if fields == [] then [] else fields[0] + Flat(fields[1..])
  }

  function Total(widths: seq<nat>): nat {
    if widths == [] then 0 else widths[0] + Total(widths[1..])
  }

  function Fields(b: Bytes, widths: seq<nat>): (f: seq<Bytes>)
    requires |b| == Total(widths)
    ensures |f| == |widths| && forall k :: 0 <= k < |f| ==> |f[k]| == widths[k]
  {
    if widths == [] then [] else [b[..widths[0]]] + Fields(b[widths[0]..], widths[1..])
  }

  predicate Fit(fields: seq<Bytes>, widths: seq<nat>) {
    |fields| == |widths| && forall k :: 0 <= k < |fields| ==> |fields[k]| == widths[k]
  }

  lemma {:induction false} FieldsOfFlat(fields: seq<Bytes>, widths: seq<nat>)
    requires Fit(fields, widths)
    ensures |Flat(fields)| == Total(widths) && Fields(Flat(fields), widths) == fields
  {
    if fields != [] {
      FieldsOfFlat(fields[1..], widths[1..]);
      assert Flat(fields)[..widths[0]] == fields[0] && Flat(fields)[widths[0]..] == Flat(fields[1..]);
    }
  }

  lemma {:induction false} FlatOfFields(b: Bytes, widths: seq<nat>)
    requires |b| == Total(widths)
    ensures Flat(Fields(b, widths)) == b
  {
    if widths != [] {
      FlatOfFields(b[widths[0]..], widths[1..]);
      var f := Fields(b, widths);
      assert f[1..] == Fields(b[widths[0]..], widths[1..]);
    }
  }

  // CRC-32 with the reflected polynomial 0xedb88320.

  function Bit(v: bv32): bv32 { if v & 1 == 1 then (v >> 1) ^ 0xedb88320 else v >> 1 }

  function Unbit(v: bv32): bv32 { if v & 0x8000_0000 == 0 then v << 1 else ((v ^ 0xedb88320) << 1) | 1 }

  /** One bit of the register can be taken back. */
  lemma BitThere(v: bv32)
    ensures Unbit(Bit(v)) == v
  {
  }

  function Bits(v: bv32, n: nat): bv32
    decreases n
  {
    if n == 0 then v else Bits(Bit(v), n - 1)
  }

  function Mixed(v: bv32, b: bv8): bv32 { v ^ (b as bv32) }

  lemma MixedDiffers(v: bv32, w: bv32, a: bv8, b: bv8)
    ensures a == b && v != w ==> Mixed(v, a) != Mixed(w, b)
    ensures v == w && a != b ==> Mixed(v, a) != Mixed(w, b)
  {
  }

  function CrcByte(v: bv32, b: bv8): bv32 { Bits(Mixed(v, b), 8) }

  function Crc(v: bv32, bytes: Bytes): bv32
    decreases |bytes|
  {
    if bytes == [] then v else Crc(CrcByte(v, bytes[0]), bytes[1..])
  }

  /** Running the register on is a bijection: different states stay different. */
  lemma {:induction false} BitsDiffer(v: bv32, w: bv32, n: nat)
    requires v != w
    ensures Bits(v, n) != Bits(w, n)
    decreases n
  {
    hide Bit;
    if n != 0 {
      assert Bit(v) != Bit(w) by { BitThere(v); BitThere(w); }
      BitsDiffer(Bit(v), Bit(w), n - 1);
    }
  }

  lemma {:induction false} CrcDiffers(v: bv32, w: bv32, bytes: Bytes)
    requires v != w
    ensures Crc(v, bytes) != Crc(w, bytes)
    decreases |bytes|
  {
    hide Bits, Mixed;
    if bytes != [] {
      MixedDiffers(v, w, bytes[0], bytes[0]);
      BitsDiffer(Mixed(v, bytes[0]), Mixed(w, bytes[0]), 8);
      CrcDiffers(CrcByte(v, bytes[0]), CrcByte(w, bytes[0]), bytes[1..]);
    }
  }

  /** A change of one byte always changes the CRC. */
  lemma {:induction false} CrcSeesByte(v: bv32, a: Bytes, b: Bytes, k: nat)
    requires k < |a| == |b| && a[..k] == b[..k] && a[k] != b[k] && a[k + 1..] == b[k + 1..]
    ensures Crc(v, a) != Crc(v, b)
    decreases k
  {
    hide Bits, Mixed;
    if k == 0 {
      MixedDiffers(v, v, a[0], b[0]);
      BitsDiffer(Mixed(v, a[0]), Mixed(v, b[0]), 8);
      CrcDiffers(CrcByte(v, a[0]), CrcByte(v, b[0]), a[1..]);
    } else {
      assert a[0] == a[..k][0] == b[..k][0] == b[0];
      assert a[1..][..k - 1] == a[..k][1..] == b[..k][1..] == b[1..][..k - 1];
      assert a[1..][k..] == a[k + 1..] && b[1..][k..] == b[k + 1..];
      CrcSeesByte(CrcByte(v, a[0]), a[1..], b[1..], k - 1);
    }
  }

  lemma {:induction false} CrcConcat(v: bv32, a: Bytes, b: Bytes)
    ensures Crc(v, a + b) == Crc(Crc(v, a), b)
    decreases |a|
  {
    if a == [] {
      assert a + b == b;
    } else {
      assert (a + b)[1..] == a[1..] + b;
      CrcConcat(CrcByte(v, a[0]), a[1..], b);
    }
  }

  /** The table-free loop over bytes and bits. */
  method Crc32(start: bv32, bytes: Bytes) returns (value: bv32)
    ensures value == Crc(start, bytes)
  {
    hide Bit, Mixed;
    value := start;
    var index := 0;
    assert bytes[0..] == bytes;
    while index < |bytes|
      invariant 0 <= index <= |bytes| && Crc(value, bytes[index..]) == Crc(start, bytes)
    {
      ghost var rest := bytes[index..];
      assert rest[1..] == bytes[index + 1..];
      ghost var before := value;
      value := Mixed(value, bytes[index]);
      var bit := 0;
      while bit < 8
        invariant 0 <= bit <= 8 && Bits(value, 8 - bit) == CrcByte(before, bytes[index])
      {
        value := Bit(value);
        bit := bit + 1;
      }
      index := index + 1;
    }
  }

  // The manifest.

  const MAGIC := 0x314b4252
  const VERSION := 1
  const HEADER_SIZE := 112
  const ITEM_SIZE := 64
  const MAX_ITEMS := 64
  const STORAGE_MAX := HEADER_SIZE + MAX_ITEMS * ITEM_SIZE
  const INCLUDE := 1
  const EXCLUDE := 2

  datatype Item = Item(id: Bytes, storage: nat, flags: nat, schema: nat)

  datatype Manifest = Manifest(
    application: Bytes, digest: Bytes, packageGeneration: nat, generation: nat, created: nat, items: seq<Item>)

  datatype Verdict = Fine | Malformed | IntegrityFailed | Ineligible | Invalid | Limit

  predicate Allowed(c: bv8) {
    || ('a' as nat <= c as nat <= 'z' as nat) || ('A' as nat <= c as nat <= 'Z' as nat)
    || ('0' as nat <= c as nat <= '9' as nat) || c == 0x2e || c == 0x5f || c == 0x2d
  }

  /** A name of allowed characters, ended by zeros, that is neither empty nor `.` nor `..`. */
  ghost predicate NameOf(id: Bytes, end: nat) {
    && 0 < end < |id| == 48
    && (forall k :: 0 <= k < end ==> id[k] != 0 && Allowed(id[k])) && (forall k :: end <= k < 48 ==> id[k] == 0)
    && !(end == 1 && id[0] == 0x2e) && !(end == 2 && id[0] == 0x2e && id[1] == 0x2e)
  }

  ghost predicate ValidId(id: Bytes) { exists end :: NameOf(id, end) }

  method IdValid(id: Bytes) returns (ok: bool)
    requires |id| == 48
    ensures ok <==> ValidId(id)
  {
    hide Allowed;
    var end := 0;
    while end < 48 && id[end] != 0
      invariant 0 <= end <= 48 && forall k :: 0 <= k < end ==> id[k] != 0 && Allowed(id[k])
    {
      if !Allowed(id[end]) {
        return false;
      }
      end := end + 1;
    }
    forall e: nat | NameOf(id, e) ensures e == end { assert id[e] == 0; }
    if end == 0 || end == 48 || (end == 1 && id[0] == 0x2e) { return false; }
    var index := end + 1;
    while index < 48
      invariant end + 1 <= index <= 48 && forall k :: end <= k < index ==> id[k] == 0
    {
      if id[index] != 0 { return false; }
      index := index + 1;
    }
    ok := !(end == 2 && id[0] == 0x2e && id[1] == 0x2e);
    if ok { assert NameOf(id, end); }
  }

  predicate NonZero(b: Bytes) { exists k :: 0 <= k < |b| && b[k] != 0 }

  /** The fields of an item as its wire form can hold them. */
  predicate ItemShape(i: Item) {
    |i.id| == 48 && i.storage < 0x1_0000 && i.flags < 0x1_0000 && i.schema <= U64_MAX
  }

  /** Caches, recent items and secrets are never included. */
  predicate Excluded(storage: nat) { storage == 4 || storage == 6 || storage == 7 }

  ghost function JudgeItem(i: Item): (v: Verdict)
    ensures v == Fine || v == Invalid || v == Ineligible
  {
    if !(1 <= i.storage <= 7) || !ValidId(i.id) || i.schema == 0 ||
      (i.flags != INCLUDE && i.flags != EXCLUDE) then Invalid
    else if Excluded(i.storage) && i.flags == INCLUDE then Ineligible
    else Fine
  }

  /** Comparing as memory: the first difference decides. */
  predicate Less(a: Bytes, b: Bytes)
    requires |a| == |b|
    decreases |a|
  {
    a != [] && (a[0] < b[0] || (a[0] == b[0] && Less(a[1..], b[1..])))
  }

  ghost predicate Ordered(items: seq<Item>) {
    forall k :: 0 < k < |items| ==> |items[k - 1].id| == |items[k].id| && Less(items[k - 1].id, items[k].id)
  }

  ghost predicate ValidManifest(m: Manifest) {
    && |m.application| == 32 && NonZero(m.application) && |m.digest| == 32 && NonZero(m.digest)
    && 0 < m.packageGeneration < U64_MAX && 0 < m.generation < U64_MAX && 0 < m.created <= U64_MAX
    && |m.items| <= MAX_ITEMS
    && (forall k :: 0 <= k < |m.items| ==> ItemShape(m.items[k]) && JudgeItem(m.items[k]) == Fine)
    && Ordered(m.items)
  }

  // The wire form.

  const HEADER_WIDTHS: seq<nat> := [4, 2, 2, 4, 4, 8, 8, 32, 32, 8, 4, 4]
  const ITEM_WIDTHS: seq<nat> := [48, 2, 2, 8, 4]

  function ItemFields(i: Item): seq<Bytes> {
    [i.id, Little(i.storage, 2), Little(i.flags, 2), Little(i.schema, 8), Little(0, 4)]
  }

  function HeaderFields(m: Manifest, integrity: Bytes): seq<Bytes> {
    [Little(MAGIC, 4), Little(VERSION, 2), Little(HEADER_SIZE, 2), Little(HEADER_SIZE + |m.items| * ITEM_SIZE, 4),
     Little(|m.items|, 4), Little(m.generation, 8), Little(m.created, 8), m.application, m.digest,
     Little(m.packageGeneration, 8), integrity, Little(0, 4)]
  }

  function Body(items: seq<Item>): Bytes {
    if items == [] then [] else Flat(ItemFields(items[0])) + Body(items[1..])
  }

  function CrcBytes(v: bv32): (b: Bytes)
    ensures |b| == 4
  {
    [(v & 0xff) as bv8, ((v >> 8) & 0xff) as bv8, ((v >> 16) & 0xff) as bv8, ((v >> 24) & 0xff) as bv8]
  }

  lemma CrcBytesSame(v: bv32, w: bv32)
    requires CrcBytes(v) == CrcBytes(w)
    ensures v == w
  {
    var a, b := CrcBytes(v), CrcBytes(w);
    assert a[0] == b[0] && a[1] == b[1] && a[2] == b[2] && a[3] == b[3];
  }

  /** The guard over a manifest whose own field is taken as zero. */
  function Integrity(header: Bytes, body: Bytes): bv32 {
    Flipped(Crc(Crc(0xffff_ffff, header), body))
  }

  function Flipped(v: bv32): bv32 { v ^ 0xffff_ffff }

  function Encoded(m: Manifest): Bytes {
    var body := Body(m.items);
    Flat(HeaderFields(m, CrcBytes(Integrity(Flat(HeaderFields(m, Little(0, 4))), body)))) + body
  }

  // Reading it back.

  datatype Decoded = Rejected(why: Verdict) | Accepted(manifest: Manifest)

  lemma HeaderTotal()
    ensures Total(HEADER_WIDTHS) == HEADER_SIZE
  {
    assert Total([8, 4, 4]) == 16;
    assert Total([32, 32, 8, 4, 4]) == 80 by {
      assert [32, 32, 8, 4, 4][1..] == [32, 8, 4, 4] && [32, 8, 4, 4][1..] == [8, 4, 4];
    }
    assert Total([8, 8, 32, 32, 8, 4, 4]) == 96 by {
      assert [8, 8, 32, 32, 8, 4, 4][1..] == [8, 32, 32, 8, 4, 4] && [8, 32, 32, 8, 4, 4][1..] == [32, 32, 8, 4, 4];
    }
    assert Total([4, 4, 8, 8, 32, 32, 8, 4, 4]) == 104 by {
      assert [4, 4, 8, 8, 32, 32, 8, 4, 4][1..] == [4, 8, 8, 32, 32, 8, 4, 4];
      assert [4, 8, 8, 32, 32, 8, 4, 4][1..] == [8, 8, 32, 32, 8, 4, 4];
    }
    assert HEADER_WIDTHS[1..] == [2, 2, 4, 4, 8, 8, 32, 32, 8, 4, 4];
    assert [2, 2, 4, 4, 8, 8, 32, 32, 8, 4, 4][1..] == [2, 4, 4, 8, 8, 32, 32, 8, 4, 4];
    assert [2, 4, 4, 8, 8, 32, 32, 8, 4, 4][1..] == [4, 4, 8, 8, 32, 32, 8, 4, 4];
  }

  lemma ItemTotal()
    ensures Total(ITEM_WIDTHS) == ITEM_SIZE
  {
    assert Total([2, 8, 4]) == 14;
  }

  function HeaderOf(b: Bytes): (f: seq<Bytes>)
    requires |b| == HEADER_SIZE
    ensures Fit(f, HEADER_WIDTHS)
  {
    HeaderTotal();
    Fields(b, HEADER_WIDTHS)
  }

  function ItemFieldsOf(b: Bytes): (f: seq<Bytes>)
    requires |b| == ITEM_SIZE
    ensures Fit(f, ITEM_WIDTHS)
  {
    ItemTotal();
    Fields(b, ITEM_WIDTHS)
  }

  function ItemOf(b: Bytes): Item
    requires |b| == ITEM_SIZE
  {
    var f := ItemFieldsOf(b);
    Item(f[0], Number(f[1]), Number(f[2]), Number(f[3]))
  }

  function ItemsOf(body: Bytes): seq<Item> {
    if |body| < ITEM_SIZE then [] else [ItemOf(body[..ITEM_SIZE])] + ItemsOf(body[ITEM_SIZE..])
  }

  /** The verdict on the items in turn, given the one before. */
  ghost function Scan(body: Bytes, prior: Option<Item>): Verdict
    decreases |body|
  {
    if |body| < ITEM_SIZE then Fine else
    var i := ItemOf(body[..ITEM_SIZE]);
    if Number(ItemFieldsOf(body[..ITEM_SIZE])[4]) != 0 || JudgeItem(i).Invalid? then Malformed
    else if JudgeItem(i).Ineligible? then Ineligible
    else if prior.Some? && (|prior.value.id| != |i.id| || !Less(prior.value.id, i.id)) then Malformed
    else Scan(body[ITEM_SIZE..], Some(i))
  }

  predicate HeaderFine(f: seq<Bytes>, size: nat)
    requires Fit(f, HEADER_WIDTHS)
  {
    && Number(f[0]) == MAGIC && Number(f[1]) == VERSION && Number(f[2]) == HEADER_SIZE && Number(f[11]) == 0
    && Number(f[4]) <= MAX_ITEMS && Number(f[3]) == size == HEADER_SIZE + Number(f[4]) * ITEM_SIZE
  }

  predicate IdentityFine(f: seq<Bytes>)
    requires Fit(f, HEADER_WIDTHS)
  {
    && 0 < Number(f[5]) < U64_MAX && Number(f[6]) != 0 && 0 < Number(f[9]) < U64_MAX
    && NonZero(f[7]) && NonZero(f[8])
  }

  /** What the validator makes of a string of bytes. */
  ghost function Decode(b: Bytes): Decoded {
    if |b| < HEADER_SIZE then Rejected(Malformed) else
    var f, body := HeaderOf(b[..HEADER_SIZE]), b[HEADER_SIZE..];
    if !HeaderFine(f, |b|) then Rejected(Malformed)
    else if f[10] != CrcBytes(Integrity(Flat(f[10 := Little(0, 4)]), body)) then Rejected(IntegrityFailed)
    else if !IdentityFine(f) then Rejected(Malformed)
    else if Scan(body, None) != Fine then Rejected(Scan(body, None))
    else Accepted(Manifest(f[7], f[8], Number(f[9]), Number(f[5]), Number(f[6]), ItemsOf(body)))
  }

  // The items, there and back.

  lemma ItemThere(i: Item)
    requires ItemShape(i)
    ensures |Flat(ItemFields(i))| == ITEM_SIZE && ItemFieldsOf(Flat(ItemFields(i))) == ItemFields(i)
    ensures ItemOf(Flat(ItemFields(i))) == i && Number(ItemFields(i)[4]) == 0
  {
    ItemTotal();
    FieldsOfFlat(ItemFields(i), ITEM_WIDTHS);
    Powers();
    NumberOfLittle(i.storage, 2);
    NumberOfLittle(i.flags, 2);
    NumberOfLittle(i.schema, 8);
    NumberOfLittle(0, 4);
  }

  lemma Powers()
    ensures Power(2) == 0x1_0000 && Power(4) == 0x1_0000_0000 && Power(8) == U64_MAX + 1
  {
    assert Power(6) == 0x1_0000_0000_0000;
  }

  lemma ItemBack(b: Bytes)
    requires |b| == ITEM_SIZE && Number(ItemFieldsOf(b)[4]) == 0
    ensures ItemShape(ItemOf(b)) && Flat(ItemFields(ItemOf(b))) == b
  {
    var f := ItemFieldsOf(b);
    ItemTotal();
    FlatOfFields(b, ITEM_WIDTHS);
    Powers();
    LittleOfNumber(f[1]);
    LittleOfNumber(f[2]);
    LittleOfNumber(f[3]);
    LittleOfNumber(f[4]);
    assert f == ItemFields(ItemOf(b));
  }

  lemma {:induction false} BodyThere(items: seq<Item>, prior: Option<Item>)
    requires forall k :: 0 <= k < |items| ==> ItemShape(items[k]) && JudgeItem(items[k]) == Fine
    requires Ordered(items)
    requires prior.Some? && items != [] ==> |prior.value.id| == |items[0].id| && Less(prior.value.id, items[0].id)
    ensures |Body(items)| == |items| * ITEM_SIZE && ItemsOf(Body(items)) == items
    ensures Scan(Body(items), prior) == Fine
    decreases |items|
  {
    hide JudgeItem, ItemShape, ItemFields, ItemFieldsOf, ItemOf, Less;
    if items != [] {
      var first := Flat(ItemFields(items[0]));
      ItemThere(items[0]);
      BodyThere(items[1..], Some(items[0]));
      assert Body(items)[..ITEM_SIZE] == first && Body(items)[ITEM_SIZE..] == Body(items[1..]);
    }
  }

  lemma {:induction false} BodyBack(body: Bytes, n: nat, prior: Option<Item>)
    requires |body| == n * ITEM_SIZE && Scan(body, prior) == Fine
    ensures |ItemsOf(body)| == n && Body(ItemsOf(body)) == body && Ordered(ItemsOf(body))
    ensures forall k :: 0 <= k < n ==> ItemShape(ItemsOf(body)[k]) && JudgeItem(ItemsOf(body)[k]) == Fine
    ensures prior.Some? && n != 0 ==>
      |prior.value.id| == |ItemsOf(body)[0].id| && Less(prior.value.id, ItemsOf(body)[0].id)
    decreases n
  {
    hide ItemShape, ItemFields, ItemFieldsOf, ItemOf, Less, JudgeItem, Flat, Number;
    if n != 0 {
      var first, rest := body[..ITEM_SIZE], body[ITEM_SIZE..];
      ItemBack(first);
      BodyBack(rest, n - 1, Some(ItemOf(first)));
      var items := ItemsOf(body);
      assert items[1..] == ItemsOf(rest);
      assert body == first + rest;
      forall k | 0 < k < |items| ensures |items[k - 1].id| == |items[k].id| && Less(items[k - 1].id, items[k].id) {
        if k > 1 { assert items[k] == ItemsOf(rest)[k - 1] && items[k - 1] == ItemsOf(rest)[k - 2]; }
      }
    }
  }

  // The whole manifest.

  lemma HeaderFits(m: Manifest, integrity: Bytes)
    requires |m.application| == 32 && |m.digest| == 32 && |integrity| == 4
    ensures Fit(HeaderFields(m, integrity), HEADER_WIDTHS)
  {
    hide Little;
  }

  lemma GuardField(m: Manifest, a: Bytes, b: Bytes)
    ensures HeaderFields(m, a)[10] == a && HeaderFields(m, a)[10 := b] == HeaderFields(m, b)
  {
    hide Little;
  }

  lemma HeaderThere(m: Manifest, integrity: Bytes)
    requires |m.application| == 32 && |m.digest| == 32 && |integrity| == 4
    ensures |Flat(HeaderFields(m, integrity))| == HEADER_SIZE
    ensures HeaderOf(Flat(HeaderFields(m, integrity))) == HeaderFields(m, integrity)
  {
    hide Little, Flat, Total, HeaderFields, Fields;
    HeaderTotal();
    HeaderFits(m, integrity);
    FieldsOfFlat(HeaderFields(m, integrity), HEADER_WIDTHS);
  }

  lemma HeaderNumbers(m: Manifest, integrity: Bytes)
    requires |m.application| == 32 && NonZero(m.application) && |m.digest| == 32 && NonZero(m.digest) &&
      |integrity| == 4
    requires 0 < m.packageGeneration < U64_MAX && 0 < m.generation < U64_MAX && 0 < m.created <= U64_MAX
    requires |m.items| <= MAX_ITEMS
    ensures
      var f := HeaderFields(m, integrity);
      && Fit(f, HEADER_WIDTHS) && HeaderFine(f, HEADER_SIZE + |m.items| * ITEM_SIZE) && IdentityFine(f)
      && f[7] == m.application && f[8] == m.digest
      && Number(f[9]) == m.packageGeneration && Number(f[5]) == m.generation && Number(f[6]) == m.created
  {
    hide Little, Number, NonZero;
    HeaderFits(m, integrity);
    Powers();
    NumberOfLittle(MAGIC, 4);
    NumberOfLittle(VERSION, 2);
    NumberOfLittle(HEADER_SIZE, 2);
    NumberOfLittle(HEADER_SIZE + |m.items| * ITEM_SIZE, 4);
    NumberOfLittle(|m.items|, 4);
    NumberOfLittle(m.generation, 8);
    NumberOfLittle(m.created, 8);
    NumberOfLittle(m.packageGeneration, 8);
    NumberOfLittle(0, 4);
  }

  /** An encoded manifest decodes to itself. */
  lemma DecodeEncoded(m: Manifest)
    requires ValidManifest(m)
    ensures Decode(Encoded(m)) == Accepted(m)
  {
    hide Integrity, HeaderOf, Scan, ItemsOf, JudgeItem, HeaderFine, IdentityFine, Little, Number, HeaderFields, Flat,
      Body, NonZero;
    var body := Body(m.items);
    var guard := CrcBytes(Integrity(Flat(HeaderFields(m, Little(0, 4))), body));
    var b := Encoded(m);
    BodyThere(m.items, None);
    HeaderThere(m, guard);
    HeaderNumbers(m, guard);
    assert b[..HEADER_SIZE] == Flat(HeaderFields(m, guard)) && b[HEADER_SIZE..] == body;
    GuardField(m, guard, Little(0, 4));
  }

  lemma FieldsAreLittle(f: seq<Bytes>)
    ensures forall k :: 0 <= k < |f| ==> Little(Number(f[k]), |f[k]|) == f[k] && Number(f[k]) < Power(|f[k]|)
  {
    forall k | 0 <= k < |f| ensures Little(Number(f[k]), |f[k]|) == f[k] && Number(f[k]) < Power(|f[k]|) {
      LittleOfNumber(f[k]);
    }
  }

  lemma HeaderBack(b: Bytes, m: Manifest)
    requires |b| >= HEADER_SIZE && HeaderFine(HeaderOf(b[..HEADER_SIZE]), |b|)
    requires
      var f := HeaderOf(b[..HEADER_SIZE]);
      m.application == f[7] && m.digest == f[8] && m.packageGeneration == Number(f[9]) &&
        m.generation == Number(f[5]) &&
      m.created == Number(f[6]) && |m.items| == Number(f[4])
    ensures
      var f := HeaderOf(b[..HEADER_SIZE]);
      && f == HeaderFields(m, f[10]) && Flat(f) == b[..HEADER_SIZE] && Number(f[6]) <= U64_MAX
  {
    hide Little, Number, Total, Flat, Fields;
    var f := HeaderOf(b[..HEADER_SIZE]);
    HeaderTotal();
    FlatOfFields(b[..HEADER_SIZE], HEADER_WIDTHS);
    Powers();
    FieldsAreLittle(f);
    assert f == HeaderFields(m, f[10]);
  }

  /** Whatever is accepted is the encoding of the manifest it decodes to, and that manifest is valid:
      with `DecodeEncoded`, a bijection between valid manifests and accepted strings. */
  lemma AcceptedIsEncoded(b: Bytes, m: Manifest)
    ensures Decode(b) == Accepted(m) <==> ValidManifest(m) && b == Encoded(m)
  {
    hide Integrity, HeaderOf, Scan, ItemsOf, JudgeItem, HeaderFine, IdentityFine, Little, Number, HeaderFields, Flat,
      Body;
    if Decode(b) == Accepted(m) {
      var f, body := HeaderOf(b[..HEADER_SIZE]), b[HEADER_SIZE..];
      AcceptedCount(b);
      BodyBack(body, Number(f[4]), None);
      HeaderBack(b, m);
      AcceptedValid(b, m);
      GuardField(m, f[10], Little(0, 4));
      assert b == b[..HEADER_SIZE] + body;
    } else if ValidManifest(m) && b == Encoded(m) {
      DecodeEncoded(m);
    }
  }

  lemma AcceptedCount(b: Bytes)
    requires Decode(b).Accepted?
    ensures |b[HEADER_SIZE..]| == Number(HeaderOf(b[..HEADER_SIZE])[4]) * ITEM_SIZE
    ensures Number(HeaderOf(b[..HEADER_SIZE])[4]) <= MAX_ITEMS && HeaderFine(HeaderOf(b[..HEADER_SIZE]), |b|)
    ensures IdentityFine(HeaderOf(b[..HEADER_SIZE]))
  {
    hide Integrity, Scan, ItemsOf;
  }

  lemma AcceptedValid(b: Bytes, m: Manifest)
    requires Decode(b) == Accepted(m) && m.created <= U64_MAX
    requires forall k :: 0 <= k < |m.items| ==> ItemShape(m.items[k]) && JudgeItem(m.items[k]) == Fine
    requires Ordered(m.items) && |m.items| <= MAX_ITEMS
    ensures ValidManifest(m)
  {
    hide Integrity, Scan, ItemsOf, JudgeItem, Ordered, ItemShape;
  }

  // One changed byte.

  ghost predicate OneByte(a: Bytes, b: Bytes, k: nat) {
    k < |a| == |b| && a[k] != b[k] && forall j :: 0 <= j < |a| && j != k ==> a[j] == b[j]
  }

  /** The bytes the guard is computed over: all but its own four, which count as zero. */
  function Guarded(b: Bytes): Bytes
    requires |b| >= HEADER_SIZE
  {
    b[..104] + Little(0, 4) + b[108..]
  }

  lemma {:induction false} FlatSplit(fields: seq<Bytes>, k: nat)
    requires k <= |fields|
    ensures Flat(fields) == Flat(fields[..k]) + Flat(fields[k..])
    decreases k
  {
    if k == 0 {
      assert fields[..0] == [] && fields[0..] == fields;
    } else {
      FlatSplit(fields[1..], k - 1);
      assert fields[..k][1..] == fields[1..][..k - 1] && fields[k..] == fields[1..][k - 1..];
      assert fields[..k] == [fields[0]] + fields[1..][..k - 1];
    }
  }

  lemma GuardTotal()
    ensures Total(HEADER_WIDTHS[..10]) == 104
  {
    var w := HEADER_WIDTHS[..10];
    assert w[1..] == [2, 2, 4, 4, 8, 8, 32, 32, 8] && w[1..][1..] == [2, 4, 4, 8, 8, 32, 32, 8];
    assert Total([2, 4, 4, 8, 8, 32, 32, 8]) == 98;
  }

  /** The header with its guard replaced. */
  lemma HeaderWithGuard(h: Bytes, z: Bytes)
    requires |h| == HEADER_SIZE && |z| == 4
    ensures HeaderOf(h)[10] == h[104..108] && Flat(HeaderOf(h)[10 := z]) == h[..104] + z + h[108..]
  {
    hide Total, Fields;
    var f := HeaderOf(h);
    HeaderTotal();
    GuardTotal();
    FlatOfFields(h, HEADER_WIDTHS);
    FlatSplit(f, 10);
    FieldsOfFlat(f[..10], HEADER_WIDTHS[..10]);
    var g := f[10 := z];
    FlatSplit(g, 10);
    assert g[..10] == f[..10] && g[10..] == [z, f[11]] && f[10..] == [f[10], f[11]];
    FlatTwo(z, f[11]);
    FlatTwo(f[10], f[11]);
  }

  lemma FlatTwo(a: Bytes, b: Bytes)
    ensures Flat([a, b]) == a + b
  {
    assert [a, b][1..] == [b] && [b][1..] == [];
    assert Flat([b]) == b + [] == b;
  }

  predicate GuardHolds(b: Bytes) {
    |b| >= HEADER_SIZE && b[104..108] == CrcBytes(Flipped(Crc(0xffff_ffff, Guarded(b))))
  }

  /** The guard of an accepted manifest is the CRC of everything else. */
  lemma GuardMeans(b: Bytes)
    requires Decode(b).Accepted?
    ensures GuardHolds(b)
  {
    hide Crc, CrcBytes, HeaderOf, Scan, ItemsOf, HeaderFine, IdentityFine, Flat, Little, Flipped;
    var h, body := b[..HEADER_SIZE], b[HEADER_SIZE..];
    HeaderWithGuard(h, Little(0, 4));
    assert h[104..108] == b[104..108] && h[..104] == b[..104];
    var header := h[..104] + Little(0, 4) + h[108..];
    CrcConcat(0xffff_ffff, header, body);
    assert header + body == Guarded(b);
  }

  lemma FlippedSame(v: bv32, w: bv32)
    requires Flipped(v) == Flipped(w)
    ensures v == w
  {
  }

  lemma GuardedChanges(b: Bytes, c: Bytes, k: nat)
    requires OneByte(b, c, k) && |b| >= HEADER_SIZE && !(104 <= k < 108)
    ensures
      var x, y := Guarded(b), Guarded(c);
      && b[104..108] == c[104..108] && k < |x| == |y| && x[..k] == y[..k] && x[k] != y[k] && x[k + 1..] == y[k + 1..]
  {
    hide Little;
  }

  /** A single changed byte breaks the guard, wherever it is. */
  lemma GuardBreaks(b: Bytes, c: Bytes, k: nat)
    requires GuardHolds(b) && OneByte(b, c, k)
    ensures !GuardHolds(c)
  {
    hide Crc, CrcBytes, Little, Flipped;
    var x, y := Guarded(b), Guarded(c);
    if 104 <= k < 108 {
      assert x == y;
      assert b[104..108][k - 104] != c[104..108][k - 104];
    } else {
      GuardedChanges(b, c, k);
      CrcSeesByte(0xffff_ffff, x, y, k);
      var v, w := Flipped(Crc(0xffff_ffff, x)), Flipped(Crc(0xffff_ffff, y));
      if v == w { FlippedSame(Crc(0xffff_ffff, x), Crc(0xffff_ffff, y)); }
      if CrcBytes(v) == CrcBytes(w) { CrcBytesSame(v, w); }
    }
  }

  /** Every change of a single byte of an accepted manifest is rejected. */
  lemma OneByteRejected(b: Bytes, c: Bytes, k: nat)
    ensures Decode(b).Accepted? && OneByte(b, c, k) ==> Decode(c).Rejected?
  {
    hide Decode, GuardHolds;
    if Decode(b).Accepted? && OneByte(b, c, k) {
      GuardMeans(b);
      GuardBreaks(b, c, k);
      if Decode(c).Accepted? { GuardMeans(c); }
    }
  }

  // The code that does it.

  method Judge(i: Item) returns (v: Verdict)
    requires ItemShape(i)
    ensures v == JudgeItem(i)
  {
    var named := IdValid(i.id);
    if !(1 <= i.storage <= 7) || !named || i.schema == 0 || (i.flags != INCLUDE && i.flags != EXCLUDE) {
      v := Invalid;
    } else if Excluded(i.storage) && i.flags == INCLUDE {
      v := Ineligible;
    } else {
      v := Fine;
    }
  }

  function Included(items: seq<Item>): nat {
    if items == [] then 0 else (if items[0].flags == INCLUDE then 1 else 0) + Included(items[1..])
  }

  /** Walks over the items of an otherwise sound manifest. */
  method ScanItems(body: Bytes, count: nat) returns (v: Verdict, eligible: nat, excluded: nat)
    requires |body| == count * ITEM_SIZE
    ensures v == Scan(body, None)
    ensures v == Fine ==> eligible == Included(ItemsOf(body)) && eligible + excluded == count
  {
    hide JudgeItem, ItemOf, ItemFieldsOf, Less, Number;
    var prior: Option<Item> := None;
    var k := 0;
    eligible, excluded := 0, 0;
    assert body[0..] == body;
    while k < count
      invariant 0 <= k <= count && Scan(body[k * ITEM_SIZE..], prior) == Scan(body, None)
      invariant eligible + excluded == k &&
        eligible + Included(ItemsOf(body[k * ITEM_SIZE..])) == Included(ItemsOf(body))
    {
      ghost var rest := body[k * ITEM_SIZE..];
      var wire := body[k * ITEM_SIZE..(k + 1) * ITEM_SIZE];
      assert rest[..ITEM_SIZE] == wire && rest[ITEM_SIZE..] == body[(k + 1) * ITEM_SIZE..];
      IncludedStep(rest);
      var item := ItemOf(wire);
      if Number(ItemFieldsOf(wire)[4]) != 0 { return Malformed, 0, 0; }
      ItemBack(wire);
      var verdict := Judge(item);
      if verdict == Ineligible { return Ineligible, 0, 0; }
      if verdict != Fine { return Malformed, 0, 0; }
      if prior.Some? && (|prior.value.id| != |item.id| || !Less(prior.value.id, item.id)) { return Malformed, 0, 0; }
      if item.flags == INCLUDE { eligible := eligible + 1; } else { excluded := excluded + 1; }
      prior := Some(item);
      k := k + 1;
    }
    v := Fine;
  }

  lemma IncludedStep(body: Bytes)
    requires |body| >= ITEM_SIZE
    ensures Included(ItemsOf(body)) ==
      (if ItemOf(body[..ITEM_SIZE]).flags == INCLUDE then 1 else 0) + Included(ItemsOf(body[ITEM_SIZE..]))
  {
    hide ItemOf;
    assert ItemsOf(body)[1..] == ItemsOf(body[ITEM_SIZE..]);
  }

  /** Validates a manifest as received. */
  method Validate(b: Bytes) returns (v: Verdict, eligible: nat, excluded: nat)
    ensures v == Fine <==> Decode(b).Accepted?
    ensures v != Fine ==> Decode(b) == Rejected(v)
    ensures v == Fine ==>
      eligible == Included(Decode(b).manifest.items) && eligible + excluded == |Decode(b).manifest.items|
  {
    hide Flat, Number, Scan, Crc, CrcBytes, Flipped, Little, ItemsOf, IdentityFine;
    eligible, excluded := 0, 0;
    if |b| < HEADER_SIZE { return Malformed, 0, 0; }
    var f, body := HeaderOf(b[..HEADER_SIZE]), b[HEADER_SIZE..];
    if !HeaderFine(f, |b|) { return Malformed, 0, 0; }
    var crc := Crc32(0xffff_ffff, Flat(f[10 := Little(0, 4)]));
    crc := Crc32(crc, body);
    if f[10] != CrcBytes(Flipped(crc)) { return IntegrityFailed, 0, 0; }
    if !IdentityFine(f) { return Malformed, 0, 0; }
    v, eligible, excluded := ScanItems(body, Number(f[4]));
    if v == Fine { BodyBack(body, Number(f[4]), None); }
  }

  lemma {:induction false} ItemsAt(body: Bytes, n: nat, k: nat)
    requires |body| == n * ITEM_SIZE && k < n
    ensures |ItemsOf(body)| == n && ItemsOf(body)[k] == ItemOf(body[k * ITEM_SIZE..(k + 1) * ITEM_SIZE])
    decreases n
  {
    hide ItemOf;
    var rest := body[ITEM_SIZE..];
    ItemsLength(rest, n - 1);
    if k != 0 {
      ItemsAt(rest, n - 1, k - 1);
      assert rest[(k - 1) * ITEM_SIZE..k * ITEM_SIZE] == body[k * ITEM_SIZE..(k + 1) * ITEM_SIZE];
    }
  }

  lemma {:induction false} ItemsLength(body: Bytes, n: nat)
    requires |body| == n * ITEM_SIZE
    ensures |ItemsOf(body)| == n
    decreases n
  {
    if n != 0 { ItemsLength(body[ITEM_SIZE..], n - 1); }
  }

  /** One entry of a manifest as received. */
  method EntryAt(b: Bytes, index: nat) returns (v: Verdict, item: Item)
    ensures v == Fine <==> Decode(b).Accepted? && index < |Decode(b).manifest.items|
    ensures v == Fine ==> item == Decode(b).manifest.items[index]
  {
    hide Decode, ItemOf, Number;
    item := Item([], 0, 0, 0);
    var eligible, excluded;
    v, eligible, excluded := Validate(b);
    if v == Fine {
      AcceptedItems(b);
      var count := Number(HeaderOf(b[..HEADER_SIZE])[4]);
      ItemsLength(b[HEADER_SIZE..], count);
      if index >= count {
        v := Limit;
      } else {
        ItemsAt(b[HEADER_SIZE..], count, index);
        item := ItemOf(b[HEADER_SIZE..][index * ITEM_SIZE..(index + 1) * ITEM_SIZE]);
      }
    }
  }

  lemma AcceptedItems(b: Bytes)
    requires Decode(b).Accepted?
    ensures |b| >= HEADER_SIZE && Decode(b).manifest.items == ItemsOf(b[HEADER_SIZE..])
    ensures |b[HEADER_SIZE..]| == Number(HeaderOf(b[..HEADER_SIZE])[4]) * ITEM_SIZE
  {
    AcceptedCount(b);
  }

  /** What the structures passed in can hold. */
  predicate StructShape(m: Manifest) {
    && |m.application| == 32 && |m.digest| == 32
    && m.packageGeneration <= U64_MAX && m.generation <= U64_MAX && m.created <= U64_MAX
    && (forall k :: 0 <= k < |m.items| ==> ItemShape(m.items[k]))
  }

  /** Checks a manifest before it is encoded. */
  method ManifestVerdict(m: Manifest) returns (v: Verdict)
    requires StructShape(m)
    ensures v == Fine <==> ValidManifest(m)
    ensures v != Limit
  {
    hide JudgeItem, Less, NonZero;
    if m.packageGeneration == 0 || m.packageGeneration == U64_MAX || !NonZero(m.application) || !NonZero(m.digest) ||
       m.generation == 0 || m.generation == U64_MAX || m.created == 0 || |m.items| > MAX_ITEMS {
      return Invalid;
    }
    var k := 0;
    while k < |m.items|
      invariant 0 <= k <= |m.items| && forall j :: 0 <= j < k ==> JudgeItem(m.items[j]) == Fine
    {
      v := Judge(m.items[k]);
      if v != Fine { return; }
      k := k + 1;
    }
    k := 1;
    while k < |m.items|
      invariant 1 <= k && (k <= |m.items| || m.items == [])
      invariant forall j :: 0 < j < k && j < |m.items| ==>
        |m.items[j - 1].id| == |m.items[j].id| && Less(m.items[j - 1].id, m.items[j].id)
    {
      if !Less(m.items[k - 1].id, m.items[k].id) { return Invalid; }
      k := k + 1;
    }
    v := Fine;
  }

  method WriteAt(output: array<bv8>, at: nat, bytes: Bytes)
    requires at + |bytes| <= output.Length
    modifies output
    ensures output[..at] == old(output[..at]) && output[at..at + |bytes|] == bytes
    ensures output[at + |bytes|..] == old(output[at + |bytes|..])
  {
    forall i | at <= i < at + |bytes| { output[i] := bytes[i - at]; }
  }

  lemma {:induction false} BodySnoc(items: seq<Item>, k: nat)
    requires k < |items|
    ensures Body(items[..k + 1]) == Body(items[..k]) + Flat(ItemFields(items[k]))
    decreases k
  {
    hide ItemFields, Flat;
    if k == 0 {
      assert items[..1] == [items[0]] && items[..0] == [] && [items[0]][1..] == [];
      assert Body([items[0]]) == Flat(ItemFields(items[0])) + Body([]);
    } else {
      BodySnoc(items[1..], k - 1);
      assert items[..k + 1][1..] == items[1..][..k] && items[..k][1..] == items[1..][..k - 1];
    }
  }

  /** Writes the items after the header. */
  method WriteItems(items: seq<Item>, header: Bytes, output: array<bv8>)
    requires |header| == HEADER_SIZE && HEADER_SIZE + |items| * ITEM_SIZE <= output.Length
    requires output[..HEADER_SIZE] == header && forall k :: 0 <= k < |items| ==> ItemShape(items[k])
    modifies output
    ensures output[..HEADER_SIZE] == header && output[HEADER_SIZE..HEADER_SIZE + |items| * ITEM_SIZE] == Body(items)
  {
    hide Flat, ItemFields;
    var k := 0;
    while k < |items|
      invariant 0 <= k <= |items| && output[..HEADER_SIZE] == header
      invariant HEADER_SIZE + k * ITEM_SIZE <= output.Length
      invariant output[HEADER_SIZE..HEADER_SIZE + k * ITEM_SIZE] == Body(items[..k])
    {
      ItemThere(items[k]);
      BodySnoc(items, k);
      ghost var done := output[HEADER_SIZE..HEADER_SIZE + k * ITEM_SIZE];
      assert HEADER_SIZE + k * ITEM_SIZE + ITEM_SIZE <= output.Length;
      WriteAt(output, HEADER_SIZE + k * ITEM_SIZE, Flat(ItemFields(items[k])));
      assert output[HEADER_SIZE..HEADER_SIZE + (k + 1) * ITEM_SIZE] == done + Flat(ItemFields(items[k]));
      k := k + 1;
    }
    assert items[..k] == items;
  }

  /** Encodes into `output`: header, items, then the header again with its guard. */
  method Encode(m: Manifest, output: array<bv8>) returns (v: Verdict, size: nat)
    requires StructShape(m)
    modifies output
    ensures v == Fine <==> ValidManifest(m) && HEADER_SIZE + |m.items| * ITEM_SIZE <= output.Length
    ensures v == Fine ==> size == HEADER_SIZE + |m.items| * ITEM_SIZE && output[..size] == Encoded(m)
    ensures v != Fine ==> size == 0 && forall i :: 0 <= i < output.Length && i < STORAGE_MAX ==> output[i] == 0
  {
    hide Flat, Crc, CrcBytes, Flipped, ItemFields, HeaderFields, Little, ValidManifest;
    size := 0;
    forall i | 0 <= i < output.Length && i < STORAGE_MAX { output[i] := 0; }
    v := ManifestVerdict(m);
    if v != Fine { return; }
    var total := HEADER_SIZE + |m.items| * ITEM_SIZE;
    if total > output.Length { return Limit, 0; }
    var header := Flat(HeaderFields(m, Little(0, 4)));
    HeaderThere(m, Little(0, 4));
    WriteAt(output, 0, header);
    WriteItems(m.items, header, output);
    var crc := Crc32(0xffff_ffff, header);
    crc := Crc32(crc, output[HEADER_SIZE..total]);
    HeaderThere(m, CrcBytes(Flipped(crc)));
    WriteAt(output, 0, Flat(HeaderFields(m, CrcBytes(Flipped(crc)))));
    assert output[..total] == output[..HEADER_SIZE] + output[HEADER_SIZE..total];
    size := total;
  }

  // The encoding is canonical: a set of items has one order, hence one encoding.

  lemma {:induction false} LessTransitive(a: Bytes, b: Bytes, c: Bytes)
    requires |a| == |b| == |c| && Less(a, b) && Less(b, c)
    ensures Less(a, c)
    decreases |a|
  {
    if a[0] == b[0] && b[0] == c[0] { LessTransitive(a[1..], b[1..], c[1..]); }
  }

  lemma {:induction false} LessIrreflexive(a: Bytes)
    ensures !Less(a, a)
    decreases |a|
  {
    if a != [] { LessIrreflexive(a[1..]); }
  }

  lemma {:induction false} OrderedFar(items: seq<Item>, i: nat, j: nat)
    requires Ordered(items) && i < j < |items| && (forall k :: 0 <= k < |items| ==> |items[k].id| == 48)
    ensures Less(items[i].id, items[j].id)
    decreases j
  {
    hide Less;
    if i + 1 < j {
      OrderedFar(items, i, j - 1);
      LessTransitive(items[i].id, items[j - 1].id, items[j].id);
    }
  }

  /** Two ordered lists of the same items are the same list. */
  lemma {:induction false} OneOrder(a: seq<Item>, b: seq<Item>)
    requires Ordered(a) && Ordered(b)
    requires (forall k :: 0 <= k < |a| ==> |a[k].id| == 48) && (forall k :: 0 <= k < |b| ==> |b[k].id| == 48)
    requires forall x :: x in a <==> x in b
    ensures a == b
    decreases |a|
  {
    hide Less;
    assert b != [] ==> b[0] in b;
    if a != [] {
      assert a[0] in a && b != [];
      FirstIsLeast(a, b);
      forall x ensures x in a[1..] <==> x in b[1..] {
        LaterDiffers(a, x);
        LaterDiffers(b, x);
      }
      OneOrder(a[1..], b[1..]);
      assert a == [a[0]] + a[1..] && b == [b[0]] + b[1..];
    }
  }

  lemma FirstIsLeast(a: seq<Item>, b: seq<Item>)
    requires a != [] && b != [] && Ordered(a) && Ordered(b)
    requires (forall k :: 0 <= k < |a| ==> |a[k].id| == 48) && (forall k :: 0 <= k < |b| ==> |b[k].id| == 48)
    requires forall x :: x in a <==> x in b
    ensures a[0] == b[0]
  {
    hide Less;
    assert a[0] in a && b[0] in b;
    var i :| 0 <= i < |a| && a[i] == b[0];
    var j :| 0 <= j < |b| && b[j] == a[0];
    if i != 0 && j != 0 {
      OrderedFar(a, 0, i);
      OrderedFar(b, 0, j);
      LessTransitive(a[0].id, b[0].id, a[0].id);
      LessIrreflexive(a[0].id);
    }
  }

  lemma LaterDiffers(a: seq<Item>, x: Item)
    requires a != [] && Ordered(a) && (forall k :: 0 <= k < |a| ==> |a[k].id| == 48)
    ensures x in a[1..] <==> x in a && x != a[0]
  {
    hide Less;
    if x in a[1..] {
      var k :| 0 <= k < |a| - 1 && a[1..][k] == x;
      OrderedFar(a, 0, k + 1);
      LessIrreflexive(a[0].id);
    }
  }

  /** Manifests that say the same have the same bytes, however their items were gathered. */
  lemma EncodingIsCanonical(m: Manifest, n: Manifest)
    requires ValidManifest(m) && ValidManifest(n) && m == n.(items := m.items)
    requires forall x :: x in m.items <==> x in n.items
    ensures Encoded(m) == Encoded(n)
  {
    OneOrder(m.items, n.items);
  }
}
