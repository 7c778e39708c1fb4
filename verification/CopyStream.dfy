/** The data path of a file copy: short reads, short writes, data and hole extents, and the
    fallback from a sparse to a dense copy in the middle of a file. */
module CopyStream {
  import opened Common
  import opened UndoSpec

  /** The open source and temporary object with their positions, and the progress counter of the
      whole operation. */
  datatype Stream = Stream(
    source: seq<bv8>, output: seq<bv8>, sourceAt: nat, outputAt: nat,
    sparse: bool, sized: bool, dataEnd: nat, completed: nat)

  datatype Outcome = Broken | More | Whole

  function Zeros(n: nat): seq<bv8> { seq(n, _ => 0 as bv8) }

  /** The bytes of the file entries before entry `i`. */
  function FileBytes(entries: seq<Entry>, i: nat): nat
    requires i <= |entries|
  {
    if i == 0 then 0
    else FileBytes(entries, i - 1) + if entries[i - 1].task.kind.File? then entries[i - 1].task.size else 0
  }

  lemma {:induction false} FileBytesGrow(entries: seq<Entry>, i: nat, k: nat)
    requires i <= k <= |entries|
    ensures FileBytes(entries, i) <= FileBytes(entries, k)
  {
    if i < k { FileBytesGrow(entries, i, k - 1); }
  }

  /** The part of the source up to `at` is in the output; both handles stand at `at` unless that is
      the end; what follows is absent, or zero once the output has its final size. */
  ghost predicate Copied(s: Stream, at: nat) {
    && at <= |s.source| && (at < |s.source| ==> s.sourceAt == at && s.outputAt == at)
    && (if s.sized then |s.output| == |s.source| else |s.output| == at)
    && s.output[..at] == s.source[..at]
    && (forall k :: at <= k < |s.output| ==> s.output[k] == 0)
  }

  function Opened(source: seq<bv8>, sparse: bool, completed: nat): Stream {
    Stream(source, [], 0, 0, sparse, false, 0, completed)
  }

  /** A run of the source without data. */
  predicate Hole(s: seq<bv8>, lo: nat, hi: nat) {
    lo <= hi <= |s| && forall k :: lo <= k < hi ==> s[k] == 0
  }

  datatype Seek = NoSupport | NoData | Found(at: nat) | Trouble

  /** Where the next data begins: nothing but zeros lies before it. */
  method SeekData(s: Stream, from: nat, reliable: bool) returns (r: Seek)
    requires from < |s.source|
    ensures r.NoData? ==> Hole(s.source, from, |s.source|)
    ensures r.Found? && from <= r.at <= |s.source| ==> Hole(s.source, from, r.at)
    ensures reliable ==> !r.Trouble? && (r.Found? ==> from <= r.at < |s.source|)
  {
    r := *;
    if r.NoData? && !Hole(s.source, from, |s.source|) { r := Trouble; }
    if r.Found? && from <= r.at <= |s.source| && !Hole(s.source, from, r.at) { r := Trouble; }
    if reliable && (r.Trouble? || (r.Found? && !(from <= r.at < |s.source|))) { r := NoSupport; }
  }

  /** Where the data that begins at `from` ends. */
  method SeekHole(s: Stream, from: nat, reliable: bool) returns (r: Seek)
    requires from < |s.source|
    ensures reliable ==> r.Found? && from < r.at <= |s.source|
  {
    r := *;
    if reliable && !(r.Found? && from < r.at <= |s.source|) { r := Found(|s.source|); }
  }

  method Fails(reliable: bool) returns (fault: bool)
    ensures reliable ==> !fault
  {
    fault := *;
    if reliable { fault := false; }
  }

  /** How many of `most` bytes a read or a write takes: any number, and when calls fail only for cause
      at least one. */
  method Transfer(most: nat, reliable: bool) returns (n: int)
    ensures reliable && most > 0 ==> 0 < n <= most
  {
    n := *;
    if reliable && !(0 < n <= most) { n := most; }
  }

  /** Progress within entry `i`: the counter less the files before it. */
  method EntryCompleted(entries: seq<Entry>, i: nat, completed: nat) returns (ok: bool, at: nat)
    requires i <= |entries|
    ensures ok <==> FileBytes(entries, i) <= completed
    ensures ok ==> at == completed - FileBytes(entries, i)
  {
    at := completed;
    for k := 0 to i
      invariant FileBytes(entries, k) <= completed && at == completed - FileBytes(entries, k)
    {
      if entries[k].task.kind.File? {
        if at < entries[k].task.size {
          FileBytesGrow(entries, k + 1, i);
          return false, at;
        }
        at := at - entries[k].task.size;
      }
    }
    ok := true;
  }

  /** Gives the output its final size, once. */
  method SizeOutput(s: Stream, ghost at: nat, reliable: bool) returns (ok: bool, t: Stream)
    requires Copied(s, at)
    ensures Copied(t, at) && t == s.(output := t.output, sized := t.sized) && (ok ==> t.sized)
    ensures reliable ==> ok
  {
    t := s;
    ok := true;
    if !s.sized {
      var fault := Fails(reliable);
      ok := !fault;
      if ok { t := s.(sized := true, output := s.output + Zeros(|s.source| - |s.output|)); }
    }
  }

  lemma HoleCopied(s: Stream, at: nat, to: nat)
    requires Copied(s, at) && s.sized && Hole(s.source, at, to)
    ensures Copied(s.(sourceAt := to, outputAt := to), to)
    ensures to == |s.source| ==> Copied(s, to)
  {
    assert forall k :: at <= k < to ==> s.output[k] == 0 == s.source[k];
    assert s.output[..to] == s.source[..to];
  }

  /** Skips to the next data extent, if extents are reported. */
  method PrepareExtent(s: Stream, at: nat, size: nat, reliable: bool) returns (ok: bool, t: Stream, next: nat)
    requires Copied(s, at) && size == |s.source|
    ensures ok ==> t.source == s.source && Copied(t, next) && at <= next <= size
    ensures ok ==> t.completed == s.completed + (next - at) && (next == at || t.completed <= U64_MAX)
    ensures ok && t.sparse && next < size ==> next < t.dataEnd <= size
    ensures reliable && s.completed + (size - at) <= U64_MAX ==> ok
  {
    t, next, ok := s, at, true;
    if s.sparse && at < size {
      var data := SeekData(s, at, reliable);
      if data.NoSupport? { return true, t.(sparse := false, dataEnd := 0), at; }
      ok, t := SizeOutput(s, at, reliable);
      if !ok { return; }
      if data.NoData? {
        if U64_MAX < t.completed + (size - at) { return false, t, at; }
        HoleCopied(t, at, size);
        return true, t.(completed := t.completed + (size - at), dataEnd := 0), size;
      }
      if !data.Found? || data.at < at || data.at >= size { return false, t, at; }
      var hole := SeekHole(t, data.at, reliable);
      if !hole.Found? || hole.at <= data.at || hole.at > size { return false, t, at; }
      HoleCopied(t, at, data.at);
      var fault := Fails(reliable);
      t := t.(sourceAt := data.at, outputAt := data.at);
      if fault || U64_MAX < t.completed + (data.at - at) { return false, t, at; }
      t := t.(completed := t.completed + (data.at - at), dataEnd := hole.at);
      next := data.at;
    }
  }

  /** A file after `bytes` were written at `at`. */
  function Overwritten(file: seq<bv8>, at: nat, bytes: seq<bv8>): (f: seq<bv8>)
    requires at <= |file|
    ensures |f| == if at + |bytes| < |file| then |file| else at + |bytes|
  {
    file[..at] + bytes + if at + |bytes| < |file| then file[at + |bytes|..] else []
  }

  lemma OverwrittenTwice(file: seq<bv8>, at: nat, a: seq<bv8>, b: seq<bv8>)
    requires at <= |file|
    ensures Overwritten(Overwritten(file, at, a), at + |a|, b) == Overwritten(file, at, a + b)
  {
  }

  lemma NothingWritten(file: seq<bv8>, at: nat, buffer: seq<bv8>)
    requires at <= |file|
    ensures Overwritten(file, at, buffer[..0]) == file
  {
  }

  lemma WrittenOn(file: seq<bv8>, at: nat, buffer: seq<bv8>, offset: nat, n: nat)
    requires at <= |file| && offset + n <= |buffer|
    ensures Overwritten(Overwritten(file, at, buffer[..offset]), at + offset, buffer[offset..offset + n])
         == Overwritten(file, at, buffer[..offset + n])
  {
    OverwrittenTwice(file, at, buffer[..offset], buffer[offset..offset + n]);
    assert buffer[..offset] + buffer[offset..offset + n] == buffer[..offset + n];
  }

  /** What a file holds after a series of writes. */
  function After(file: seq<bv8>, writes: seq<seq<bv8>>): seq<bv8> {
    if writes == [] then file else writes[|writes| - 1]
  }

  /** Some of the buffer is in the file, from its beginning. */
  ghost predicate PartlyWritten(file: seq<bv8>, at: nat, buffer: seq<bv8>, now: seq<bv8>)
    requires at <= |file|
  {
    exists n :: 0 < n <= |buffer| && now == Overwritten(file, at, buffer[..n])
  }

  /** Writes the whole buffer in as many short writes as it takes; `writes` is what the file held
      after each of them, also when one of them failed. */
  method WriteAll(s: Stream, buffer: seq<bv8>, reliable: bool) returns (ok: bool, t: Stream, writes: seq<seq<bv8>>)
    requires s.outputAt <= |s.output|
    ensures ok ==>
      t == s.(output := Overwritten(s.output, s.outputAt, buffer), outputAt := s.outputAt + |buffer|)
    ensures reliable ==> ok
    ensures t.output == After(s.output, writes)
    ensures forall k :: 0 <= k < |writes| ==> PartlyWritten(s.output, s.outputAt, buffer, writes[k])
  {
    hide Overwritten;
    NothingWritten(s.output, s.outputAt, buffer);
    writes := [];
    t := s;
    var offset := 0;
    while offset < |buffer|
      invariant offset <= |buffer|
      invariant t == s.(output := Overwritten(s.output, s.outputAt, buffer[..offset]), outputAt := s.outputAt + offset)
      invariant t.output == After(s.output, writes)
      invariant forall k :: 0 <= k < |writes| ==> PartlyWritten(s.output, s.outputAt, buffer, writes[k])
    {
      var fault := Fails(reliable);
      var written := Transfer(|buffer| - offset, reliable);
      if fault || written <= 0 || written > |buffer| - offset { return false, t, writes; }
      WrittenOn(s.output, s.outputAt, buffer, offset, written);
      t := t.(output := Overwritten(t.output, t.outputAt, buffer[offset..offset + written]),
        outputAt := t.outputAt + written);
      offset := offset + written;
      assert PartlyWritten(s.output, s.outputAt, buffer, t.output);
      writes := writes + [t.output];
    }
    assert buffer[..offset] == buffer;
    ok := true;
  }

  lemma ChunkCopied(s: Stream, at: nat, count: nat)
    requires Copied(s, at) && at + count <= |s.source| && at < |s.source|
    ensures
      var bytes := s.source[at..at + count];
      Copied(s.(sourceAt := at + count, outputAt := at + count, output := Overwritten(s.output, at, bytes)), at + count)
  {
    var bytes := s.source[at..at + count];
    var out := Overwritten(s.output, at, bytes);
    assert out[..at + count] == s.source[..at] + bytes == s.source[..at + count];
  }

  /** Everything the copy of entry `i` relies on between two pumps. */
  ghost predicate Streaming(s: Stream, entries: seq<Entry>, i: nat) {
    && i < |entries| && entries[i].task.kind.File? && |s.source| == entries[i].task.size
    && FileBytes(entries, i) <= s.completed && Copied(s, s.completed - FileBytes(entries, i))
  }

  /** Reads and writes at most one buffer of `capacity` bytes from position `at` on. */
  method CopyChunk(s: Stream, at: nat, size: nat, capacity: nat, reliable: bool)
    returns (ok: bool, t: Stream, count: nat, writes: seq<seq<bv8>>)
    requires Copied(s, at) && at < size == |s.source|
    ensures ok ==> 0 < count <= size - at && t.source == s.source
    ensures ok ==> t.completed == s.completed + count && Copied(t, at + count)
    ensures reliable && capacity > 0 && (s.sparse ==> at < s.dataEnd) ==> ok
    ensures t.output == After(s.output, writes)
  {
    t, count, writes := s, 0, [];
    var limit := capacity;
    if s.sparse {
      if s.dataEnd <= at { return false, t, 0, []; }
      if s.dataEnd - at < limit { limit := s.dataEnd - at; }
    }
    var fault := Fails(reliable);
    var got := Transfer(if limit < size - at then limit else size - at, reliable);
    if fault || got <= 0 || got > limit || at + got > size { return false, t, 0, []; }
    count := got;
    ChunkCopied(s, at, count);
    hide Copied;
    ok, t, writes := WriteAll(s.(sourceAt := at + count), s.source[at..at + count], reliable);
    t := t.(completed := t.completed + count);
    assert ok ==> Copied(t.(completed := s.completed), at + count);
    CopiedAnyCount(t.(completed := s.completed), at + count, t.completed);
  }

  lemma CopiedAnyCount(s: Stream, at: nat, completed: nat)
    ensures Copied(s.(completed := completed), at) == Copied(s, at)
  {
  }

  /** One pump of the data path: skip a hole, then copy a chunk. When it reports the file whole, the
      output is the source. */
  method Step(s: Stream, entries: seq<Entry>, i: nat, capacity: nat, reliable: bool)
    returns (outcome: Outcome, t: Stream, writes: seq<seq<bv8>>)
    requires Streaming(s, entries, i) && FileBytes(entries, |entries|) <= U64_MAX
    ensures !outcome.Broken? ==>
      Streaming(t, entries, i) && t.source == s.source && s.completed <= t.completed <= FileBytes(entries, |entries|)
    ensures outcome.Whole? ==> t.output == s.source && t.completed == FileBytes(entries, i + 1)
    ensures outcome.More? ==> s.completed < t.completed
    ensures reliable && capacity > 0 ==> !outcome.Broken?
    ensures t.output == After(s.output, writes)
  {
    writes := [];
    var size := entries[i].task.size;
    FileBytesGrow(entries, i + 1, |entries|);
    var ok, at := EntryCompleted(entries, i, s.completed);
    if !ok || at > size { return Broken, s, []; }
    var next;
    ok, t, next := PrepareExtent(s, at, size, reliable);
    if t.output != s.output { writes := [t.output]; }
    if !ok { return Broken, t, writes; }
    if next == size {
      assert t.output == t.output[..size] == t.source[..size] == t.source;
      return Whole, t, writes;
    }
    var count, more;
    ok, t, count, more := CopyChunk(t, next, size, capacity, reliable);
    writes := writes + more;
    outcome := if ok then More else Broken;
  }
}
