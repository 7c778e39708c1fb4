/** AES-SIV with CMAC and counter mode (RFC 5297) over any block cipher. */
module AesSiv {
  import opened Common

  type Bytes = seq<bv8>
  type Block = b: Bytes | |b| == 16 witness seq(16, _ => 0)
  /** The block cipher under a key. */
  type Cipher = Block -> Block

  function Zeros(n: nat): Bytes { seq(n, _ => 0) }

  function Mix(a: bv8, b: bv8): bv8 { a ^ b }

  function Xor(a: Bytes, b: Bytes): (c: Bytes)
    requires |a| == |b|
    ensures |c| == |a|
  {
    seq(|a|, i requires 0 <= i < |a| => Mix(a[i], b[i]))
  }

  /** A string of bytes as a big-endian number. */
  function Value(b: Bytes): nat {
    if b == [] then 0 else 256 * Value(b[..|b| - 1]) + b[|b| - 1] as nat
  }

  function Power(n: nat): nat { if n == 0 then 1 else 256 * Power(n - 1) }

  lemma {:induction false} ValueBound(b: Bytes)
    ensures Value(b) < Power(|b|)
  {
    if b != [] { ValueBound(b[..|b| - 1]); }
  }

  // Doubling, section 2.3 of RFC 5297.

  function High(x: bv8): bv8 { x >> 7 }

  function Low(x: bv8, carry: bv8): bv8 { (x << 1) | carry }

  lemma HighLow(x: bv8, carry: bv8)
    requires carry <= 1
    ensures High(x) <= 1 && 256 * High(x) as nat + Low(x, carry) as nat == 2 * (x as nat) + carry as nat
  {
  }

  /** All bits one place to the left, with `carry` coming in on the right. */
  function Shifted(b: Bytes, carry: bv8): (c: Bytes)
    ensures |c| == |b|
  {
    if b == [] then [] else Shifted(b[..|b| - 1], High(b[|b| - 1])) + [Low(b[|b| - 1], carry)]
  }

  function Doubled(b: Block): Block {
    var s := Shifted(b, 0);
    if High(b[0]) == 0 then s else s[15 := Mix(s[15], 0x87)]
  }

  /** The number the top bit stands for when it leaves on the left. */
  function Carried(b: Bytes): nat
    requires b != []
  {
    if High(b[0]) == 0 then 0 else Power(|b|)
  }

  lemma ValueSnoc(front: Bytes, last: bv8)
    ensures Value(front + [last]) == 256 * Value(front) + last as nat
  {
    assert (front + [last])[..|front|] == front;
  }

  /** Shifting doubles the number, but for the top bit that leaves on the left. */
  lemma {:induction false} ShiftedValue(b: Bytes, carry: bv8)
    requires carry <= 1 && b != []
    ensures 2 * Value(b) + carry as nat == Carried(b) + Value(Shifted(b, carry))
  {
    hide High, Low;
    var front, last := b[..|b| - 1], b[|b| - 1];
    HighLow(last, carry);
    ValueSnoc(Shifted(front, High(last)), Low(last, carry));
    if front != [] {
      ShiftedValue(front, High(last));
      assert front[0] == b[0];
      assert Carried(b) == 256 * Carried(front);
    } else {
      assert Power(1) == 256;
      assert Shifted(front, High(last)) == [];
    }
  }

  lemma SetAt(s: Bytes, i: nat, x: bv8)
    requires i < |s|
    ensures s[i := x][..i] == s[..i] && s[i := x][i..] == [x] + s[i + 1..]
  {
  }

  lemma ShiftedSnoc(b: Bytes, index: nat, carry: bv8, tail: Bytes)
    requires index < |b|
    ensures Shifted(b[..index + 1], carry) + tail ==
            Shifted(b[..index], High(b[index])) + ([Low(b[index], carry)] + tail)
  {
    hide High, Low;
    assert b[..index + 1][..index] == b[..index];
    var front := Shifted(b[..index], High(b[index]));
    assert front + [Low(b[index], carry)] + tail == front + ([Low(b[index], carry)] + tail);
  }

  /** The shift in place, from the last byte to the first. */
  method ShiftLeft(block: array<bv8>) returns (carry: bv8)
    requires block.Length == 16
    modifies block
    ensures block[..] == Shifted(old(block[..]), 0) && carry == High(old(block[0]))
  {
    hide High, Low, Shifted;
    carry := 0;
    var index := 16;
    ghost var b := block[..];
    assert b[..16] == b && b[16..] == [] && Shifted(b, 0) + [] == Shifted(b, 0);
    while index != 0
      invariant 0 <= index <= 16 && block[..index] == b[..index]
      invariant Shifted(b, 0) == Shifted(b[..index], carry) + block[index..]
      invariant index < 16 ==> carry == High(b[index])
    {
      index := index - 1;
      ghost var was := block[..];
      assert was[index] == b[..index + 1][index] == b[index] && was[index + 1..] == block[index + 1..];
      assert was[..index] == b[..index + 1][..index] == b[..index];
      var next := High(block[index]);
      ShiftedSnoc(b, index, carry, block[index + 1..]);
      SetAt(was, index, Low(b[index], carry));
      block[index] := Low(block[index], carry);
      assert block[..] == was[index := Low(b[index], carry)];
      assert block[index..] == block[..][index..] && block[..index] == block[..][..index];
      carry := next;
    }
    ShiftedNothing(b[..0], carry);
    assert [] + block[0..] == block[..];
  }

  lemma ShiftedNothing(b: Bytes, carry: bv8)
    requires b == []
    ensures Shifted(b, carry) == []
  {
  }

  /** Doubling in place. */
  method Double(block: array<bv8>)
    requires block.Length == 16
    modifies block
    ensures block[..] == Doubled(old(block[..]))
  {
    hide High, Low, Mix, Shifted;
    var carry := ShiftLeft(block);
    if carry != 0 {
      block[15] := Mix(block[15], 0x87);
    }
  }

  // CMAC, as section 2.4 of RFC 5297 uses it.

  /** The last, incomplete block: a one bit, then zeros. */
  function Padded(m: Bytes): Block
    requires |m| < 16
  {
    m + [0x80] + Zeros(15 - |m|)
  }

  /** The rest of a CMAC from the chaining value on. */
  function CmacFrom(aes: Cipher, k1: Block, k2: Block, state: Block, m: Bytes): Block
    decreases |m|
  {
    if |m| > 16 then CmacFrom(aes, k1, k2, aes(Xor(m[..16], state)), m[16..])
    else if |m| == 16 then aes(Xor(Xor(m, k1), state))
    else aes(Xor(Xor(Padded(m), k2), state))
  }

  function Cmac(aes: Cipher, m: Bytes): Block {
    var k1 := Doubled(aes(Zeros(16)));
    CmacFrom(aes, k1, Doubled(k1), Zeros(16), m)
  }

  /** A string with its last sixteen bytes mixed with a block: `xorend` of RFC 5297. */
  function XorEnd(m: Bytes, end: Block): (r: Bytes)
    requires |m| >= 16
    ensures |r| == |m|
  {
    m[..|m| - 16] + Xor(m[|m| - 16..], end)
  }

  function Virtual(m: Bytes, end: Option<Block>): (r: Bytes)
    requires end.Some? ==> |m| >= 16
    ensures |r| == |m|
  {
    if end.None? then m else XorEnd(m, end.value)
  }

  /** One byte of the mixed string, without building it. */
  function VirtualByte(m: Bytes, end: Option<Block>, index: nat): (x: bv8)
    requires index < |m| && (end.Some? ==> |m| >= 16)
    ensures x == Virtual(m, end)[index]
  {
    if end.Some? && index >= |m| - 16 then Mix(m[index], end.value[index - (|m| - 16)]) else m[index]
  }

  method XorInto(destination: array<bv8>, source: Block)
    requires destination.Length == 16
    modifies destination
    ensures destination[..] == Xor(old(destination[..]), source)
  {
    hide Mix;
    var index := 0;
    while index < 16
      invariant 0 <= index <= 16
      invariant forall k :: 0 <= k < index ==> destination[k] == Mix(old(destination[k]), source[k])
      invariant forall k :: index <= k < 16 ==> destination[k] == old(destination[k])
    {
      destination[index] := Mix(destination[index], source[index]);
      index := index + 1;
    }
  }

  /** Takes bytes of the virtual string into the front of a block. */
  method TakeBytes(bytes: Bytes, end: Option<Block>, offset: nat, count: nat, block: array<bv8>)
    requires block.Length == 16 && count <= 16 && offset + count <= |bytes| && (end.Some? ==> |bytes| >= 16)
    modifies block
    ensures block[..count] == Virtual(bytes, end)[offset..offset + count] && block[count..] == old(block[count..])
  {
    hide Mix;
    var index := 0;
    while index < count
      invariant 0 <= index <= count
      invariant forall k :: 0 <= k < index ==> block[k] == Virtual(bytes, end)[offset + k]
      invariant forall k :: index <= k < 16 ==> block[k] == old(block[k])
    {
      block[index] := VirtualByte(bytes, end, offset + index);
      index := index + 1;
    }
  }

  /** The last block of a CMAC, complete or padded. */
  method LastBlock(aes: Cipher, k1: Block, k2: Block, state: Block, bytes: Bytes, end: Option<Block>, offset: nat)
    returns (result: Block)
    requires offset <= |bytes| <= offset + 16 && (end.Some? ==> |bytes| >= 16)
    ensures result == CmacFrom(aes, k1, k2, state, Virtual(bytes, end)[offset..])
  {
    hide Mix;
    var block := new bv8[16](_ => 0);
    var remainder := |bytes| - offset;
    ghost var m := Virtual(bytes, end)[offset..];
    TakeBytes(bytes, end, offset, remainder, block);
    assert block[..remainder] == m;
    if remainder == 16 {
      assert block[..] == m;
      XorInto(block, k1);
    } else {
      assert block[remainder..] == Zeros(16 - remainder);
      block[remainder] := 0x80;
      assert block[..] == block[..remainder] + [0x80] + block[remainder + 1..] == Padded(m);
      XorInto(block, k2);
    }
    XorInto(block, state);
    result := aes(block[..]);
  }

  /** CMAC of a string whose last sixteen bytes are mixed on the fly: the same as the CMAC of the
      mixed string. */
  method CmacOf(aes: Cipher, bytes: Bytes, end: Option<Block>) returns (result: Block)
    requires end.Some? ==> |bytes| >= 16
    ensures result == Cmac(aes, Virtual(bytes, end))
  {
    hide Mix, High, Low;
    var key := new bv8[16](_ => 0);
    var k1: Block := aes(key[..]);
    assert key[..] == Zeros(16);
    k1 := DoubleOf(k1);
    var k2 := DoubleOf(k1);
    var blocks := (|bytes| + 15) / 16;
    if blocks == 0 { blocks := 1; }
    var state: Block := Zeros(16);
    var k := 0;
    ghost var m := Virtual(bytes, end);
    assert m[0..] == m;
    while k + 1 < blocks
      invariant 0 <= k < blocks && 16 * (blocks - 1) <= |bytes| <= 16 * blocks
      invariant blocks > 1 ==> 16 * (blocks - 1) < |bytes|
      invariant CmacFrom(aes, k1, k2, state, m[16 * k..]) == Cmac(aes, m)
    {
      var block := new bv8[16](_ => 0);
      TakeBytes(bytes, end, 16 * k, 16, block);
      assert block[..16] == block[..] == m[16 * k..][..16];
      XorInto(block, state);
      assert m[16 * k..][16..] == m[16 * (k + 1)..];
      state := aes(block[..]);
      k := k + 1;
    }
    result := LastBlock(aes, k1, k2, state, bytes, end, 16 * k);
  }

  method DoubleOf(b: Block) returns (r: Block)
    ensures r == Doubled(b)
  {
    var block := new bv8[16](i requires 0 <= i < 16 => b[i]);
    assert block[..] == b;
    Double(block);
    r := block[..];
  }

  // S2V, section 2.4 of RFC 5297.

  /** The running value after the associated strings. */
  function Folded(aes: Cipher, strings: seq<Bytes>): Block {
    if strings == [] then Cmac(aes, Zeros(16))
    else Xor(Doubled(Folded(aes, strings[..|strings| - 1])), Cmac(aes, strings[|strings| - 1]))
  }

  function S2V(aes: Cipher, strings: seq<Bytes>, last: Bytes): Block {
    var d := Folded(aes, strings);
    Cmac(aes, if |last| >= 16 then XorEnd(last, d) else Xor(Padded(last), Doubled(d)))
  }

  method S2VOf(aes: Cipher, strings: seq<Bytes>, plaintext: Bytes) returns (result: Block)
    ensures result == S2V(aes, strings, plaintext)
  {
    hide Mix, High, Low, Cmac, Doubled;
    result := CmacOf(aes, Zeros(16), None);
    var k := 0;
    while k < |strings|
      invariant 0 <= k <= |strings| && result == Folded(aes, strings[..k])
    {
      assert strings[..k + 1][..k] == strings[..k];
      var doubled := DoubleOf(result);
      var mac := CmacOf(aes, strings[k], None);
      result := Xor(doubled, mac);
      k := k + 1;
    }
    assert strings[..k] == strings;
    if |plaintext| >= 16 {
      result := CmacOf(aes, plaintext, Some(result));
    } else {
      var doubled := DoubleOf(result);
      result := CmacOf(aes, Xor(Padded(plaintext), doubled), None);
    }
  }

  // Counter mode, section 2.5 of RFC 5297.

  function Next(x: bv8): bv8 { x + 1 }

  lemma NextValue(x: bv8)
    ensures Next(x) == 0 ==> x as nat == 255
    ensures Next(x) != 0 ==> Next(x) as nat == x as nat + 1
  {
  }

  function Cleared(x: bv8): bv8 { x & 0x7f }

  lemma ClearedValue(x: bv8)
    ensures (Cleared(x)) as nat < 128
  {
  }

  /** The tag with two bits cleared, the first counter. */
  function First(tag: Block): Block { tag[8 := Cleared(tag[8])][12 := Cleared(tag[12])] }

  /** One more, as a big-endian number of fixed length that wraps. */
  function Bumped(b: Bytes): (c: Bytes)
    ensures |c| == |b|
  {
    if b == [] then [] else
    var last := Next(b[|b| - 1]);
    if last != 0 then b[..|b| - 1] + [last] else Bumped(b[..|b| - 1]) + [last]
  }

  lemma {:induction false} BumpedValue(b: Bytes)
    ensures Value(Bumped(b)) == if Value(b) + 1 < Power(|b|) then Value(b) + 1 else 0
  {
    hide Next;
    if b != [] {
      var front, last := b[..|b| - 1], b[|b| - 1];
      NextValue(last);
      BumpedValue(front);
      ValueBound(front);
      ValueSnoc(front, Next(last));
      ValueSnoc(Bumped(front), Next(last));
    }
  }

  /** The `j`th counter: the last four bytes count, the others stay. */
  function Counter(first: Block, j: nat): Block {
    if j == 0 then first else
    var c := Counter(first, j - 1);
    c[..12] + Bumped(c[12..])
  }

  function KeyStream(aes: Cipher, tag: Block, i: nat): bv8 { aes(Counter(First(tag), i / 16))[i % 16] }

  function Ctr(aes: Cipher, tag: Block, input: Bytes): (output: Bytes)
    ensures |output| == |input|
  {
    seq(|input|, i requires 0 <= i < |input| => Mix(input[i], KeyStream(aes, tag, i)))
  }

  lemma {:induction false} CounterWord(first: Block, j: nat)
    ensures Counter(first, j)[..12] == first[..12]
    ensures Value(Counter(first, j)[12..]) == (Value(first[12..]) + j) % 0x1_0000_0000
  {
    hide Value, Power, Bumped;
    ValueBound(first[12..]);
    PowerFour();
    if j != 0 {
      CounterWord(first, j - 1);
      var c := Counter(first, j - 1);
      assert Counter(first, j)[12..] == Bumped(c[12..]) && Counter(first, j)[..12] == c[..12];
      BumpedValue(c[12..]);
      OneOn(Value(first[12..]), j);
    }
  }

  lemma {:induction false} ValueConcat(a: Bytes, b: Bytes)
    ensures Value(a + b) == Value(a) * Power(|b|) + Value(b)
  {
    hide Value, Power;
    if b == [] {
      assert a + b == a;
      EmptyValue(b);
    } else {
      var front, last := b[..|b| - 1], b[|b| - 1];
      ValueConcat(a, front);
      assert a + b == (a + front) + [last] && b == front + [last];
      ValueSnoc(a + front, last);
      ValueSnoc(front, last);
      PowerStep(|b|);
      Scaled(Value(a), Power(|front|));
    }
  }

  lemma EmptyValue(b: Bytes)
    requires b == []
    ensures Value(b) == 0 && Power(|b|) == 1
  {
  }

  lemma PowerStep(n: nat)
    requires n > 0
    ensures Power(n) == 256 * Power(n - 1)
  {
  }

  lemma Scaled(x: nat, y: nat)
    ensures 256 * (x * y) == x * (256 * y)
  {
  }

  /** Exactly as long as the last word does not overflow, the counter is the first one plus `j` as a
      128-bit number. */
  lemma CounterIsSum(first: Block, j: nat)
    ensures Value(Counter(first, j)) == Value(first) + j <==> Value(first[12..]) + j < 0x1_0000_0000
  {
    hide Value, Power, Counter;
    CounterWord(first, j);
    PowerFour();
    ValueConcat(first[..12], first[12..]);
    assert first[..12] + first[12..] == first;
    var c := Counter(first, j);
    ValueConcat(c[..12], c[12..]);
    assert c[..12] + c[12..] == c;
    SumIff(Value(c[12..]), Value(first[12..]), j);
  }

  /** One more, then the remainder, is the remainder of one more. */
  lemma OneOn(x: nat, j: nat)
    requires j > 0
    ensures var w := (x + (j - 1)) % 0x1_0000_0000;
            (x + j) % 0x1_0000_0000 == if w + 1 < 0x1_0000_0000 then w + 1 else 0
  {
  }

  lemma PowerFour()
    ensures Power(4) == 0x1_0000_0000
  {
  }

  lemma SumIff(after: nat, before: nat, j: nat)
    requires after == (before + j) % 0x1_0000_0000
    ensures after == before + j <==> before + j < 0x1_0000_0000
  {
  }

  lemma OneByteValue(x: bv8)
    ensures Value([x]) == x as nat
  {
    ValueSnoc([], x);
    assert [] + [x] == [x];
  }

  lemma PowerThree()
    ensures Power(3) == 0x100_0000
  {
  }

  /** A word whose first bit is clear is below 2^31. */
  lemma SmallWord(word: Bytes)
    requires |word| == 4 && word[0] as nat < 128
    ensures Value(word) < 0x8000_0000
  {
    hide Value, Power;
    assert word == [word[0]] + word[1..];
    ValueConcat([word[0]], word[1..]);
    ValueBound(word[1..]);
    OneByteValue(word[0]);
    PowerThree();
  }

  /** Since a tag bit is cleared, that covers any message of up to 2^31 blocks. */
  lemma EveryCounterIsSum(tag: Block, j: nat)
    requires j <= 0x8000_0000
    ensures Value(Counter(First(tag), j)) == Value(First(tag)) + j
  {
    hide Value, Counter, Cleared;
    ClearedValue(tag[12]);
    assert First(tag)[12..][0] == Cleared(tag[12]);
    SmallWord(First(tag)[12..]);
    CounterIsSum(First(tag), j);
  }

  /** Counting up in place: bytes 15 down to 12. */
  method Bump(counter: array<bv8>)
    requires counter.Length == 16
    modifies counter
    ensures counter[..12] == old(counter[..12]) && counter[12..] == Bumped(old(counter[12..]))
  {
    hide Next, Bumped;
    var index := 16;
    ghost var w := counter[12..];
    assert w[..4] == w && Bumped(w) + [] == Bumped(w) && counter[16..] == [];
    while index != 12
      invariant 12 <= index <= 16
      invariant counter[..index] == old(counter[..])[..index]
      invariant Bumped(w) == Bumped(w[..index - 12]) + counter[index..]
    {
      index := index - 1;
      ghost var was := counter[..];
      assert was[..index] == old(counter[..])[..index + 1][..index] == old(counter[..])[..index];
      assert was[index] == old(counter[..])[..index + 1][index] == w[index - 12];
      assert was[index + 1..] == counter[index + 1..];
      BumpedSnoc(w, index - 12, counter[index + 1..]);
      SetAt(was, index, Next(w[index - 12]));
      counter[index] := Next(counter[index]);
      assert counter[..] == was[index := Next(w[index - 12])];
      assert counter[index..] == counter[..][index..] && counter[..index] == counter[..][..index];
      if counter[index] != 0 {
        assert counter[12..] == counter[..index][12..] + counter[index..];
        assert counter[..12] == counter[..index][..12] == old(counter[..])[..12];
        assert old(counter[..])[..index][12..] == w[..index - 12];
        return;
      }
    }
    BumpedNothing(w[..0]);
    assert [] + counter[12..] == counter[12..];
    assert counter[..12] == old(counter[..])[..12];
  }

  lemma BumpedNothing(b: Bytes)
    requires b == []
    ensures Bumped(b) == []
  {
  }

  lemma BumpedSnoc(b: Bytes, index: nat, tail: Bytes)
    requires index < |b|
    ensures Bumped(b[..index + 1]) + tail ==
            (if Next(b[index]) != 0 then b[..index] else Bumped(b[..index])) + ([Next(b[index])] + tail)
  {
    hide Next;
    assert b[..index + 1][..index] == b[..index];
    var front := if Next(b[index]) != 0 then b[..index] else Bumped(b[..index]);
    assert front + [Next(b[index])] + tail == front + ([Next(b[index])] + tail);
  }

  /** Mixes one chunk of the input with the key stream. */
  method MixChunk(stream: Block, input: Bytes, offset: nat, chunk: nat, output: array<bv8>, start: nat)
    requires offset + chunk <= |input| && chunk <= 16 && start + |input| <= output.Length
    modifies output
    ensures forall k :: 0 <= k < output.Length ==>
      output[k] == if start + offset <= k < start + offset + chunk
                   then Mix(input[k - start], stream[k - start - offset]) else old(output[k])
  {
    hide Mix;
    var index := 0;
    while index < chunk
      invariant 0 <= index <= chunk
      invariant forall k :: 0 <= k < output.Length ==>
        output[k] == if start + offset <= k < start + offset + index
                     then Mix(input[k - start], stream[k - start - offset]) else old(output[k])
    {
      output[start + offset + index] := Mix(input[offset + index], stream[index]);
      index := index + 1;
    }
  }

  method Advance(counter: array<bv8>, ghost first: Block, ghost j: nat)
    requires counter.Length == 16 && counter[..] == Counter(first, j)
    modifies counter
    ensures counter[..] == Counter(first, j + 1)
  {
    ghost var c := counter[..];
    Bump(counter);
    assert counter[..] == counter[..12] + counter[12..];
    assert c[..12] == counter[..12];
  }

  lemma StreamAt(aes: Cipher, tag: Block, j: nat, k: nat)
    requires 16 * j <= k < 16 * j + 16
    ensures KeyStream(aes, tag, k) == aes(Counter(First(tag), j))[k - 16 * j]
  {
    assert k / 16 == j && k % 16 == k - 16 * j;
  }

  /** Counter mode from `input` into `output` at `start`. */
  method CtrInto(aes: Cipher, tag: Block, input: Bytes, output: array<bv8>, start: nat)
    requires start + |input| <= output.Length
    modifies output
    ensures forall k :: 0 <= k < output.Length ==>
      output[k] == if start <= k < start + |input| then Ctr(aes, tag, input)[k - start] else old(output[k])
  {
    hide Mix, Next, Cleared, KeyStream, Counter, Bumped;
    var counter := new bv8[16](i requires 0 <= i < 16 => tag[i]);
    counter[8] := Cleared(counter[8]);
    counter[12] := Cleared(counter[12]);
    assert counter[..] == First(tag);
    CounterZero(First(tag));
    var offset := 0;
    ghost var j := 0;
    while offset < |input|
      invariant 0 <= offset <= |input| && (offset == 16 * j || offset == |input|)
      invariant counter[..] == Counter(First(tag), j) && fresh(counter)
      invariant forall k :: 0 <= k < output.Length ==>
        output[k] == if start <= k < start + offset then Mix(input[k - start], KeyStream(aes, tag, k - start))
                     else old(output[k])
      decreases |input| - offset
    {
      var chunk := if |input| - offset > 16 then 16 else |input| - offset;
      var stream := aes(counter[..]);
      forall k | offset <= k < offset + chunk ensures stream[k - offset] == KeyStream(aes, tag, k) {
        StreamAt(aes, tag, j, k);
      }
      MixChunk(stream, input, offset, chunk, output, start);
      offset := offset + chunk;
      Advance(counter, First(tag), j);
      j := j + 1;
    }
  }

  lemma CounterZero(first: Block)
    ensures Counter(first, 0) == first
  {
  }

  // Sealing and opening, sections 2.6 and 2.7 of RFC 5297.

  function Sealed(mac: Cipher, ctr: Cipher, strings: seq<Bytes>, plaintext: Bytes): Bytes {
    var tag := S2V(mac, strings, plaintext);
    tag + Ctr(ctr, tag, plaintext)
  }

  function Opened(mac: Cipher, ctr: Cipher, strings: seq<Bytes>, sealed: Bytes): Option<Bytes> {
    if |sealed| < 16 then None else
    var plaintext := Ctr(ctr, sealed[..16], sealed[16..]);
    if S2V(mac, strings, plaintext) == sealed[..16] then Some(plaintext) else None
  }

  lemma MixTwice(a: bv8, b: bv8)
    ensures Mix(Mix(a, b), b) == a
  {
  }

  /** Counter mode undoes itself under the same tag. */
  lemma CtrTwice(aes: Cipher, tag: Block, m: Bytes)
    ensures Ctr(aes, tag, Ctr(aes, tag, m)) == m
  {
    hide Mix;
    forall i | 0 <= i < |m| ensures Ctr(aes, tag, Ctr(aes, tag, m))[i] == m[i] {
      MixTwice(m[i], KeyStream(aes, tag, i));
    }
  }

  /** What was sealed opens to itself. */
  lemma OpenSealed(mac: Cipher, ctr: Cipher, strings: seq<Bytes>, plaintext: Bytes)
    ensures Opened(mac, ctr, strings, Sealed(mac, ctr, strings, plaintext)) == Some(plaintext)
  {
    hide S2V, Ctr;
    var tag := S2V(mac, strings, plaintext);
    var sealed := Sealed(mac, ctr, strings, plaintext);
    assert sealed[..16] == tag && sealed[16..] == Ctr(ctr, tag, plaintext);
    CtrTwice(ctr, tag, plaintext);
  }

  /** Only what was sealed opens: a string opens to `plaintext` exactly when it is its sealing. */
  lemma OpenedIsSealed(mac: Cipher, ctr: Cipher, strings: seq<Bytes>, sealed: Bytes, plaintext: Bytes)
    ensures Opened(mac, ctr, strings, sealed) == Some(plaintext) <==> sealed == Sealed(mac, ctr, strings, plaintext)
  {
    hide S2V, Ctr;
    OpenSealed(mac, ctr, strings, plaintext);
    if Opened(mac, ctr, strings, sealed) == Some(plaintext) {
      CtrTwice(ctr, sealed[..16], sealed[16..]);
      assert sealed == sealed[..16] + sealed[16..];
    }
  }

  /** Seals into `output`; refuses too many strings and too little room, and with it the one way in
      which two whole buffers can overlap. */
  method Seal(mac: Cipher, ctr: Cipher, strings: seq<Bytes>, maxStrings: nat, plaintext: array<bv8>, output: array<bv8>)
    returns (ok: bool, size: nat)
    modifies output
    ensures ok <==> |strings| <= maxStrings && plaintext.Length + 16 <= output.Length
    ensures ok ==> size == plaintext.Length + 16 && output[..size] == Sealed(mac, ctr, strings, old(plaintext[..]))
    ensures !ok ==> size == 0 && output[..] == old(output[..])
  {
    hide S2V, Ctr;
    ok, size := false, 0;
    if |strings| > maxStrings || output.Length < plaintext.Length + 16 { return; }
    ghost var p := plaintext[..];
    var tag := S2VOf(mac, strings, plaintext[..]);
    var input := plaintext[..];
    forall i | 0 <= i < 16 { output[i] := tag[i]; }
    CtrInto(ctr, tag, input, output, 16);
    ok, size := true, plaintext.Length + 16;
    assert output[..size] == tag + Ctr(ctr, tag, p);
  }

  /** Are two blocks the same? Looks at every byte whatever it finds. */
  method SameBlock(a: Block, b: Block) returns (same: bool)
    ensures same <==> a == b
  {
    hide Mix, Join;
    var difference: bv8 := 0;
    var index := 0;
    while index < 16
      invariant 0 <= index <= 16
      invariant difference == 0 <==> a[..index] == b[..index]
    {
      JoinZero(difference, a[index], b[index]);
      assert a[..index + 1] == a[..index] + [a[index]] && b[..index + 1] == b[..index] + [b[index]];
      difference := Join(difference, Mix(a[index], b[index]));
      index := index + 1;
    }
    assert a[..16] == a && b[..16] == b;
    same := difference == 0;
  }

  function Join(x: bv8, y: bv8): bv8 { x | y }

  lemma JoinZero(d: bv8, x: bv8, y: bv8)
    ensures Join(d, Mix(x, y)) == 0 <==> d == 0 && x == y
  {
  }

  /** Opens into `output`; what does not authenticate leaves nothing but zeros behind. */
  method Open(mac: Cipher, ctr: Cipher, strings: seq<Bytes>, maxStrings: nat, sealed: array<bv8>, output: array<bv8>)
    returns (ok: bool, size: nat)
    modifies output
    ensures ok ==> size + 16 == sealed.Length && size <= output.Length
    ensures ok ==> Opened(mac, ctr, strings, old(sealed[..])) == Some(output[..size])
    ensures !ok ==> size == 0
    ensures (|strings| <= maxStrings && 16 <= sealed.Length <= output.Length + 16 &&
      (sealed == output ==> sealed.Length == 16)) ==>
      && (ok <==> Opened(mac, ctr, strings, old(sealed[..])).Some?)
      && (!ok ==> output[..sealed.Length - 16] == Zeros(sealed.Length - 16))
  {
    hide S2V, Ctr;
    ok, size := false, 0;
    if |strings| > maxStrings || sealed.Length < 16 || output.Length < sealed.Length - 16 ||
       (sealed == output && sealed.Length != 16) {
      return;
    }
    var n := sealed.Length - 16;
    ghost var c := sealed[..];
    var tag: Block := sealed[..16];
    var input := sealed[16..];
    assert input == c[16..];
    CtrInto(ctr, tag, input, output, 0);
    assert output[..n] == Ctr(ctr, tag, input);
    var expected := S2VOf(mac, strings, output[..n]);
    ok := SameBlock(expected, tag);
    if ok {
      size := n;
    } else {
      forall i | 0 <= i < n { output[i] := 0; }
    }
  }
}
