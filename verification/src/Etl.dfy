/**
 The external merge sort of crates/etl/src/lib.rs: entries are buffered, sorted by key and
 written to files when the buffer is full, and the files are merged through a heap.

 A file is a byte string with a read position, owned by one collector or iterator at a time.
 */
module Etl {
  import opened Prelude
  import opened Lexicographic

  // ---------------------------------------------------------------------------------------
  // File format
  // ---------------------------------------------------------------------------------------

  function Pow256(k: nat): nat {
    if k == 0 then 1 else 256 * Pow256(k - 1)
  }

  /** `n` as `k` big-endian bytes, higher digits cut off. */
  function ToBe(n: nat, k: nat): (r: Bytes)
    ensures |r| == k
  {
    if k == 0 then [] else ToBe(n / 256, k - 1) + [n % 256]
  }

  function FromBe(b: Bytes): nat {
    if b == [] then 0 else 256 * FromBe(b[..|b| - 1]) + b[|b| - 1]
  }

  lemma {:induction false} FromBeToBe(n: nat, k: nat)
    requires n < Pow256(k)
    ensures FromBe(ToBe(n, k)) == n
  {
    if k > 0 {
      FromBeToBe(n / 256, k - 1);
      assert ToBe(n, k)[..k - 1] == ToBe(n / 256, k - 1);
    }
  }

  /** Lengths are 8-byte words. */
  const KV_LEN := 8

  predicate Fits(e: Entry) {
    |e.key| < Pow256(KV_LEN) && |e.value| < Pow256(KV_LEN)
  }

  function Encode(e: Entry): Bytes {
    ToBe(|e.key|, KV_LEN) + ToBe(|e.value|, KV_LEN) + e.key + e.value
  }

  function EncodeAll(entries: seq<Entry>): Bytes {
    if entries == [] then [] else Encode(entries[0]) + EncodeAll(entries[1..])
  }

  lemma {:induction false} EncodeAllAppend(entries: seq<Entry>, e: Entry)
    ensures EncodeAll(entries + [e]) == EncodeAll(entries) + Encode(e)
  {
    if entries == [] {
      assert [e][1..] == [];
    } else {
      assert (entries + [e])[1..] == entries[1..] + [e];
      EncodeAllAppend(entries[1..], e);
    }
  }

  datatype EtlFile = EtlFile(bytes: Bytes, pos: nat, len: nat)

  /** What is left to read of the file is `run`. */
  ghost predicate Holds(f: EtlFile, run: seq<Entry>) {
    && f.pos <= |f.bytes| && f.bytes[f.pos..] == EncodeAll(run) && f.len == |run|
    && forall e :: e in run ==> Fits(e)
  }

  /** Writes a buffer to a new file and rewinds it. */
  method NewFile(buffer: seq<Entry>) returns (f: EtlFile)
    requires forall e :: e in buffer ==> Fits(e)
    ensures Holds(f, buffer)
  {
    var bytes: Bytes := [];
    for i := 0 to |buffer|
      invariant bytes == EncodeAll(buffer[..i])
    {
      var e := buffer[i];
      bytes := bytes + ToBe(|e.key|, KV_LEN) + ToBe(|e.value|, KV_LEN) + e.key + e.value;
      EncodeAllAppend(buffer[..i], e);
      assert buffer[..i + 1] == buffer[..i] + [e];
      assert EncodeAll(buffer[..i]) + Encode(e) == bytes;
    }
    assert buffer[..|buffer|] == buffer;
    f := EtlFile(bytes, 0, |buffer|);
  }

  datatype IoError = UnexpectedEof

  /** The next `n` bytes, or an error at the end of the file. */
  function ReadExact(f: EtlFile, n: nat): Result<(EtlFile, Bytes), IoError> {
    if f.pos + n <= |f.bytes| then Ok((f.(pos := f.pos + n), f.bytes[f.pos..f.pos + n])) else Err(UnexpectedEof)
  }

  lemma {:induction false} ReadPrefix(f: EtlFile, a: Bytes, b: Bytes)
    requires f.pos <= |f.bytes| && f.bytes[f.pos..] == a + b
    ensures ReadExact(f, |a|) == Ok((f.(pos := f.pos + |a|), a))
    ensures f.bytes[f.pos + |a|..] == b
  {
    assert f.bytes[f.pos..][..|a|] == a && f.bytes[f.pos..][|a|..] == b;
    assert f.bytes[f.pos..f.pos + |a|] == f.bytes[f.pos..][..|a|];
    assert f.bytes[f.pos + |a|..] == f.bytes[f.pos..][|a|..];
  }

  /** Reads one entry. `run` is what the file holds, if it is well formed. */
  method ReadNext(f: EtlFile, ghost run: seq<Entry>) returns (f': EtlFile, r: Result<Option<Entry>, IoError>)
    ensures f.len == 0 ==> r == Ok(None) && f' == f
    ensures f.len > 0 ==> r != Ok(None)
    ensures f.len > 0 && f.pos + 2 * KV_LEN > |f.bytes| ==> r == Err(UnexpectedEof)
    ensures Holds(f, run) && run != [] ==> r == Ok(Some(run[0])) && Holds(f', run[1..])
  {
    f' := f;
    if f.len == 0 {
      return f, Ok(None);
    }
    if Holds(f, run) { var _, _ := Layout(f, run); }
    var keyLength := ReadExact(f, KV_LEN);
    if keyLength.Err? { return f, Err(keyLength.error); }
    var valueLength := ReadExact(keyLength.value.0, KV_LEN);
    if valueLength.Err? { return f, Err(valueLength.error); }
    var key := ReadExact(valueLength.value.0, FromBe(keyLength.value.1));
    if key.Err? { return f, Err(key.error); }
    var value := ReadExact(key.value.0, FromBe(valueLength.value.1));
    if value.Err? { return f, Err(value.error); }
    f' := value.value.0.(len := f.len - 1);
    r := Ok(Some(Entry(key.value.1, value.value.1)));
  }

  lemma {:induction false} LengthsRoundTrip(e: Entry)
    requires Fits(e)
    ensures FromBe(ToBe(|e.key|, KV_LEN)) == |e.key| && FromBe(ToBe(|e.value|, KV_LEN)) == |e.value|
  {
    FromBeToBe(|e.key|, KV_LEN);
    FromBeToBe(|e.value|, KV_LEN);
  }

  lemma {:induction false} Regroup(a: Bytes, b: Bytes, c: Bytes, d: Bytes, e: Bytes)
    ensures a + b + c + d + e == a + (b + (c + (d + e)))
  {
  }

  /** The first entry's bytes, in the order they are read: two encoded lengths, key and value. */
  lemma {:induction false} EntryLayout(f: EtlFile, run: seq<Entry>) returns (a: Bytes, b: Bytes)
    requires Holds(f, run) && run != []
    ensures |a| == KV_LEN && FromBe(a) == |run[0].key| && |b| == KV_LEN && FromBe(b) == |run[0].value|
    ensures f.bytes[f.pos..] == a + (b + (run[0].key + (run[0].value + EncodeAll(run[1..]))))
  {
    var e := run[0];
    assert e in run;
    LengthsRoundTrip(e);
    a, b := ToBe(|e.key|, KV_LEN), ToBe(|e.value|, KV_LEN);
    Regroup(a, b, e.key, e.value, EncodeAll(run[1..]));
  }

  /** Four fields in a row, read one after the other. */
  lemma {:induction false} ReadFour(f: EtlFile, a: Bytes, b: Bytes, c: Bytes, d: Bytes, rest: Bytes)
    requires f.pos <= |f.bytes| && f.bytes[f.pos..] == a + (b + (c + (d + rest)))
    ensures var f1 := f.(pos := f.pos + |a|);
            var f2 := f1.(pos := f1.pos + |b|);
            var f3 := f2.(pos := f2.pos + |c|);
            var f4 := f3.(pos := f3.pos + |d|);
            && ReadExact(f, |a|) == Ok((f1, a)) && ReadExact(f1, |b|) == Ok((f2, b))
            && ReadExact(f2, |c|) == Ok((f3, c)) && ReadExact(f3, |d|) == Ok((f4, d))
            && f4.pos <= |f.bytes| && f.bytes[f4.pos..] == rest
  {
    ReadPrefix(f, a, b + (c + (d + rest)));
    var f1 := f.(pos := f.pos + |a|);
    ReadPrefix(f1, b, c + (d + rest));
    var f2 := f1.(pos := f1.pos + |b|);
    ReadPrefix(f2, c, d + rest);
    ReadPrefix(f2.(pos := f2.pos + |c|), d, rest);
  }

  /** What the four reads of one entry return. */
  lemma {:induction false} Layout(f: EtlFile, run: seq<Entry>) returns (a: Bytes, b: Bytes)
    requires Holds(f, run) && run != []
    ensures var e := run[0];
            var f1 := f.(pos := f.pos + KV_LEN);
            var f2 := f1.(pos := f1.pos + KV_LEN);
            var f3 := f2.(pos := f2.pos + |e.key|);
            var f4 := f3.(pos := f3.pos + |e.value|);
            && ReadExact(f, KV_LEN) == Ok((f1, a)) && FromBe(a) == |e.key|
            && ReadExact(f1, KV_LEN) == Ok((f2, b)) && FromBe(b) == |e.value|
            && ReadExact(f2, |e.key|) == Ok((f3, e.key)) && ReadExact(f3, |e.value|) == Ok((f4, e.value))
            && Holds(f4.(len := f.len - 1), run[1..])
  {
    a, b := EntryLayout(f, run);
    ReadFour(f, a, b, run[0].key, run[0].value, EncodeAll(run[1..]));
    forall x | x in run[1..] ensures Fits(x) {
      assert x in run;
    }
  }

  // ---------------------------------------------------------------------------------------
  // Contents of several sorted runs
  // ---------------------------------------------------------------------------------------

  ghost function Contents(runs: seq<seq<Entry>>): multiset<Entry> {
    if runs == [] then multiset{} else Contents(runs[..|runs| - 1]) + multiset(runs[|runs| - 1])
  }

  lemma {:induction false} ContentsTail(runs: seq<seq<Entry>>, i: nat)
    requires i < |runs| && runs[i] != []
    ensures Contents(runs) == Contents(runs[i := runs[i][1..]]) + multiset{runs[i][0]}
  {
    var n := |runs| - 1;
    var less := runs[i := runs[i][1..]];
    if i == n {
      assert less[..n] == runs[..n];
      assert runs[i] == [runs[i][0]] + runs[i][1..];
    } else {
      assert less[..n] == runs[..n][i := runs[i][1..]];
      ContentsTail(runs[..n], i);
    }
  }

  lemma {:induction false} ContentsMember(runs: seq<seq<Entry>>, x: Entry) returns (i: nat)
    requires x in Contents(runs)
    ensures i < |runs| && x in runs[i]
  {
    var n := |runs| - 1;
    if x in runs[n] {
      i := n;
    } else {
      i := ContentsMember(runs[..n], x);
    }
  }

  lemma {:induction false} ContentsEmpty(runs: seq<seq<Entry>>)
    requires forall i :: 0 <= i < |runs| ==> runs[i] == []
    ensures Contents(runs) == multiset{}
  {
    if runs != [] { ContentsEmpty(runs[..|runs| - 1]); }
  }

  // ---------------------------------------------------------------------------------------
  // The merging iterator
  // ---------------------------------------------------------------------------------------

  /** The heap holds the first entry of every stream that has one, the file holds the rest. */
  ghost predicate StreamOk(heap: map<nat, Entry>, files: seq<EtlFile>, streams: seq<seq<Entry>>, i: nat)
    requires |files| == |streams| && i < |files|
  {
    && KeySorted(streams[i])
    && (i in heap <==> streams[i] != [])
    && if streams[i] == [] then Holds(files[i], []) else heap[i] == streams[i][0] && Holds(files[i], streams[i][1..])
  }

  ghost predicate StreamsOk(heap: map<nat, Entry>, files: seq<EtlFile>, streams: seq<seq<Entry>>) {
    && |files| == |streams|
    && (forall i {:trigger StreamOk(heap, files, streams, i)} :: 0 <= i < |files| ==> StreamOk(heap, files, streams, i))
    && forall i :: i in heap ==> i < |files|
  }

  /** Before `a` in the heap: the smaller entry comes first, and of equal ones the later file. */
  predicate Before(heap: map<nat, Entry>, a: nat, b: nat)
    requires a in heap && b in heap
  {
    heap[a].Le(heap[b]) && (heap[a] == heap[b] ==> b <= a)
  }

  /** The heap's top element. */
  method Top(heap: map<nat, Entry>) returns (id: nat)
    requires heap.Keys != {}
    ensures id in heap && forall i :: i in heap ==> Before(heap, id, i)
  {
    id :| id in heap;
    var rest := heap.Keys - {id};
    Reflexive(heap[id].key);
    Reflexive(heap[id].value);
    while rest != {}
      invariant id in heap && rest <= heap.Keys
      invariant forall i :: i in heap && i !in rest ==> Before(heap, id, i)
    {
      var k :| k in rest;
      rest := rest - {k};
      TopStep(heap, id, k, rest);
      if !Before(heap, id, k) { id := k; }
    }
  }

  lemma {:induction false} TopStep(heap: map<nat, Entry>, id: nat, k: nat, rest: set<nat>)
    requires id in heap && k in heap
    requires forall i :: i in heap && i !in rest && i != k ==> Before(heap, id, i)
    ensures !Before(heap, id, k) ==> forall i :: i in heap && i !in rest ==> Before(heap, k, i)
  {
    if !Before(heap, id, k) {
      LeTotal(heap[id], heap[k]);
      forall i | i in heap && i !in rest ensures Before(heap, k, i) {
        Reflexive(heap[k].key);
        Reflexive(heap[k].value);
        if i != k {
          LeTransitive(heap[k], heap[id], heap[i]);
          if heap[i] == heap[k] { LeAntisymmetric(heap[k], heap[id]); }
        }
      }
    }
  }

  lemma {:induction false} LeAntisymmetric(a: Entry, b: Entry)
    requires a.Le(b) && b.Le(a)
    ensures a == b
  {
    Antisymmetric(a.key, b.key);
    Antisymmetric(a.value, b.value);
  }

  /** The least head has the least key of everything still to come. */
  lemma {:induction false} TopIsLeast(heap: map<nat, Entry>, files: seq<EtlFile>, streams: seq<seq<Entry>>, id: nat, x: Entry)
    requires StreamsOk(heap, files, streams) && id in heap && x in Contents(streams)
    requires forall i :: i in heap ==> Before(heap, id, i)
    ensures AtMost(heap[id].key, x.key)
  {
    var i := ContentsMember(streams, x);
    assert StreamOk(heap, files, streams, i);
    FirstIsLeast(streams[i], x);
    assert Before(heap, id, i);
    Transitive(heap[id].key, heap[i].key, x.key);
  }

  class EtlIter {
    var heap: map<nat, Entry>
    var files: seq<EtlFile>
    ghost var streams: seq<seq<Entry>>

    ghost predicate Valid()
      reads this
    {
      StreamsOk(heap, files, streams)
    }

    /** Reads the first entry of every file into the heap. */
    constructor (files: seq<EtlFile>, ghost runs: seq<seq<Entry>>)
      requires |files| == |runs| && forall i :: 0 <= i < |runs| ==> Holds(files[i], runs[i]) && KeySorted(runs[i])
      ensures Valid() && streams == runs
    {
      var h, fs := Primed(files, runs);
      this.heap, this.files, this.streams := h, fs, runs;
    }

    /** Every heap entry comes from one of the files. */
    ghost predicate Bounded()
      reads this
    {
      forall i :: i in heap ==> i < |files|
    }

    /**
     The least entry still to come, taken from the streams. If the file it came from cannot be
     read any further, the error is returned in its place, and entry and file are dropped; with
     well-formed files this does not happen.
     */
    method Next() returns (r: Option<Result<Entry, IoError>>)
      requires Bounded()
      modifies this
      ensures Bounded() && (r == None <==> old(heap.Keys) == {})
      ensures r.Some? && r.value.Err? ==> exists id :: id in old(heap) && heap == old(heap) - {id}
      ensures old(Valid()) ==>
                && Valid()
                && (r == None ==> old(Contents(streams)) == multiset{} && streams == old(streams))
                && (r.Some? ==>
                      && r.value.Ok? && old(Contents(streams)) == Contents(streams) + multiset{r.value.value}
                      && forall x :: x in old(Contents(streams)) ==> AtMost(r.value.value.key, x.key))
    {
      if heap.Keys == {} {
        if Valid() { NothingLeft(heap, files, streams); }
        return None;
      }
      var id := Top(heap);
      var entry := heap[id];
      ghost var valid := Valid();
      ghost var run := [];
      if valid { run := Taken(heap, files, streams, id); }
      ghost var oldHeap, oldFiles, oldStreams := heap, files, streams;
      var f, next := ReadNext(files[id], run);
      heap := if next.Ok? && next.value.Some? then heap[id := next.value.value] else heap - {id};
      files := files[id := f];
      if valid {
        streams := streams[id := run];
        Popped(oldHeap, oldFiles, oldStreams, id, heap, f);
      }
      r := Some(if next.Err? then Err(next.error) else Ok(entry));
    }
  }

  lemma {:induction false} NothingLeft(heap: map<nat, Entry>, files: seq<EtlFile>, streams: seq<seq<Entry>>)
    requires StreamsOk(heap, files, streams) && heap.Keys == {}
    ensures Contents(streams) == multiset{}
  {
    forall i | 0 <= i < |streams| ensures streams[i] == [] {
      assert StreamOk(heap, files, streams, i);
    }
    ContentsEmpty(streams);
  }

  /** The top entry is the least of all that is left, and what is left of its stream is in its file. */
  lemma {:induction false} Taken(heap: map<nat, Entry>, files: seq<EtlFile>, streams: seq<seq<Entry>>, id: nat) returns (run: seq<Entry>)
    requires StreamsOk(heap, files, streams) && id in heap && forall i :: i in heap ==> Before(heap, id, i)
    ensures id < |streams| == |files| && streams[id] != [] && run == streams[id][1..] && Holds(files[id], run)
    ensures Contents(streams) == Contents(streams[id := run]) + multiset{heap[id]}
    ensures forall x :: x in Contents(streams) ==> AtMost(heap[id].key, x.key)
  {
    assert StreamOk(heap, files, streams, id);
    run := streams[id][1..];
    forall x | x in Contents(streams) ensures AtMost(heap[id].key, x.key) {
      TopIsLeast(heap, files, streams, id, x);
    }
    ContentsTail(streams, id);
  }

  method Primed(files: seq<EtlFile>, ghost runs: seq<seq<Entry>>) returns (heap: map<nat, Entry>, fs: seq<EtlFile>)
    requires |files| == |runs| && forall i :: 0 <= i < |runs| ==> Holds(files[i], runs[i]) && KeySorted(runs[i])
    ensures StreamsOk(heap, fs, runs)
  {
    heap, fs := map[], [];
    for id := 0 to |files|
      invariant |fs| == id && StreamsOk(heap, fs, runs[..id])
    {
      var f, first := ReadNext(files[id], runs[id]);
      ghost var h0, f0 := heap, fs;
      if first.Ok? && first.value.Some? {
        heap := heap[id := first.value.value];
      }
      fs := fs + [f];
      ghost var upto := runs[..id + 1];
      forall i | 0 <= i <= id ensures StreamOk(heap, fs, upto, i) {
        if i < id { assert StreamOk(h0, f0, runs[..id], i); }
      }
    }
    assert runs[..|runs|] == runs;
  }

  /** Advancing one stream keeps the others in place. */
  lemma {:induction false} Popped(heap: map<nat, Entry>, files: seq<EtlFile>, streams: seq<seq<Entry>>, id: nat,
                                  heap': map<nat, Entry>, f: EtlFile)
    requires StreamsOk(heap, files, streams) && id in heap && streams[id] != []
    requires var run := streams[id][1..];
             if run == [] then heap' == heap - {id} && Holds(f, [])
             else heap' == heap[id := run[0]] && Holds(f, run[1..])
    ensures StreamsOk(heap', files[id := f], streams[id := streams[id][1..]])
  {
    var files', streams' := files[id := f], streams[id := streams[id][1..]];
    forall i | 0 <= i < |files| ensures StreamOk(heap', files', streams', i) {
      assert StreamOk(heap, files, streams, i);
    }
  }

  /** Everything in `out` comes before everything in `rest`. */
  ghost predicate Under(out: seq<Entry>, rest: multiset<Entry>) {
    forall x, y :: x in out && y in rest ==> AtMost(x.key, y.key)
  }

  lemma {:induction false} EmitLeast(out: seq<Entry>, before: multiset<Entry>, after: multiset<Entry>, e: Entry)
    requires KeySorted(out) && Under(out, before) && before == after + multiset{e}
    requires forall x :: x in before ==> AtMost(e.key, x.key)
    ensures KeySorted(out + [e]) && Under(out + [e], after)
  {
    assert e in before;
    assert forall y :: y in after ==> y in before;
    var more := out + [e];
    forall i, j | 0 <= i < j < |more| ensures AtMost(more[i].key, more[j].key) {
      if j == |out| { assert more[i] in out; }
    }
  }

  /** A full pass: everything, in key order. */
  method Drain(it: EtlIter) returns (out: seq<Entry>)
    requires it.Valid()
    modifies it
    ensures KeySorted(out) && multiset(out) == old(Contents(it.streams))
  {
    out := [];
    ghost var rest := Contents(it.streams);
    while true
      invariant it.Valid() && rest == Contents(it.streams)
      invariant KeySorted(out) && Under(out, rest)
      invariant old(Contents(it.streams)) == multiset(out) + rest
      decreases |rest|
    {
      var next := it.Next();
      if next == None {
        break;
      }
      ghost var before := rest;
      rest := Contents(it.streams);
      EmitLeast(out, before, rest, next.value.value);
      out := out + [next.value.value];
    }
  }

  // ---------------------------------------------------------------------------------------
  // The collector
  // ---------------------------------------------------------------------------------------

  function Size(e: Entry): nat { |e.key| + |e.value| }

  function TotalSize(entries: seq<Entry>): nat {
    if entries == [] then 0 else TotalSize(entries[..|entries| - 1]) + Size(entries[|entries| - 1])
  }

  /** What is still in the buffer after a sequence of insertions. */
  function Buffered(entries: seq<Entry>, capacity: nat): seq<Entry> {
    if entries == [] then []
    else
      var buffer := Buffered(entries[..|entries| - 1], capacity) + [entries[|entries| - 1]];
      if TotalSize(buffer) > capacity then [] else buffer
  }

  lemma {:induction false} BufferedAppend(entries: seq<Entry>, capacity: nat, e: Entry)
    ensures var buffer := Buffered(entries, capacity);
            && TotalSize(buffer + [e]) == TotalSize(buffer) + Size(e)
            && Buffered(entries + [e], capacity) == if TotalSize(buffer + [e]) > capacity then [] else buffer + [e]
  {
    var buffer := Buffered(entries, capacity);
    assert (buffer + [e])[..|buffer|] == buffer;
    assert (entries + [e])[..|entries|] == entries;
  }

  ghost predicate RunsOk(files: seq<EtlFile>, runs: seq<seq<Entry>>) {
    |files| == |runs| && forall i :: 0 <= i < |runs| ==> Holds(files[i], runs[i]) && KeySorted(runs[i])
  }

  class Collector {
    const capacity: nat
    var files: seq<EtlFile>
    var bufferSizeBytes: nat
    var buffer: seq<Entry>
    var len: nat
    ghost var runs: seq<seq<Entry>>
    ghost var inserted: seq<Entry>

    /** Every inserted entry is in a file or in the buffer. */
    ghost predicate Accounted()
      reads this
    {
      && RunsOk(files, runs)
      && (forall e :: e in buffer ==> Fits(e))
      && bufferSizeBytes == TotalSize(buffer)
      && multiset(inserted) == Contents(runs) + multiset(buffer)
    }

    ghost predicate Valid()
      reads this
    {
      Accounted() && buffer == Buffered(inserted, capacity) && len == |inserted|
    }

    constructor (capacity: nat)
      ensures Valid() && this.capacity == capacity && inserted == []
    {
      this.capacity := capacity;
      files, bufferSizeBytes, buffer, len := [], 0, [], 0;
      runs, inserted := [], [];
    }

    /** Sorts the buffer into a new file. */
    method Flush()
      requires Accounted()
      modifies this`files, this`bufferSizeBytes, this`buffer, this`runs
      ensures Accounted() && buffer == []
    {
      bufferSizeBytes := 0;
      var sorted := SortByKey(buffer);
      forall e | e in sorted ensures Fits(e) {
        assert e in multiset(buffer);
      }
      var f := NewFile(sorted);
      assert (runs + [sorted])[..|runs|] == runs;
      files := files + [f];
      runs := runs + [sorted];
      buffer := [];
    }

    method Push(e: Entry)
      requires Accounted() && Fits(e)
      modifies this`bufferSizeBytes, this`buffer, this`inserted
      ensures Accounted() && buffer == old(buffer) + [e] && inserted == old(inserted) + [e]
    {
      assert (buffer + [e])[..|buffer|] == buffer;
      bufferSizeBytes := bufferSizeBytes + |e.key| + |e.value|;
      buffer := buffer + [e];
      inserted := inserted + [e];
    }

    method Insert(e: Entry)
      requires Valid() && Fits(e)
      modifies this
      ensures Valid() && inserted == old(inserted) + [e]
    {
      BufferedAppend(inserted, capacity, e);
      Push(e);
      if bufferSizeBytes > capacity {
        Flush();
      }
      len := len + 1;
    }

    /** An iterator over everything that is on file once a buffer of at least one byte is flushed. */
    method Iter() returns (it: EtlIter)
      requires Valid()
      modifies this`files, this`bufferSizeBytes, this`buffer, this`runs
      ensures it.Valid() && fresh(it)
      ensures old(buffer == [] || bufferSizeBytes > 0) ==> Contents(it.streams) == multiset(inserted)
      ensures !old(buffer == [] || bufferSizeBytes > 0) ==> Contents(it.streams) + multiset(old(buffer)) == multiset(inserted)
    {
      if bufferSizeBytes > 0 {
        Flush();
      }
      it := new EtlIter(files, runs);
    }
  }

  /** The insertions after the last flush are more than none, but not a single byte in all. */
  predicate LosesTail(entries: seq<Entry>, capacity: nat) {
    Buffered(entries, capacity) != [] && TotalSize(Buffered(entries, capacity)) == 0
  }

  method Fill(entries: seq<Entry>, capacity: nat) returns (collector: Collector)
    requires forall e :: e in entries ==> Fits(e)
    ensures fresh(collector) && collector.Valid() && collector.capacity == capacity && collector.inserted == entries
  {
    collector := new Collector(capacity);
    for i := 0 to |entries|
      invariant fresh(collector) && collector.Valid() && collector.capacity == capacity && collector.inserted == entries[..i]
    {
      var e := entries[i];
      assert e in entries && entries[..i + 1] == entries[..i] + [e];
      collector.Insert(e);
    }
    assert entries[..|entries|] == entries;
  }

  lemma {:induction false} LeftOut(out: seq<Entry>, left: seq<Entry>, entries: seq<Entry>)
    requires multiset(out) + multiset(left) == multiset(entries)
    ensures multiset(out) == multiset(entries) <==> left == []
    ensures |out| == |entries| <==> left == []
  {
    assert |multiset(out)| == |out| && |multiset(entries)| == |entries| && |multiset(left)| == |left|;
  }

  /**
   Inserting and then iterating once sorts: the output is in key order, and it is a permutation
   of the input exactly when the entries left in the buffer have at least one byte, or there
   are none.
   */
  method CollectAndIterate(entries: seq<Entry>, capacity: nat) returns (out: seq<Entry>)
    requires forall e :: e in entries ==> Fits(e)
    ensures KeySorted(out)
    ensures multiset(out) == multiset(entries) <==> !LosesTail(entries, capacity)
    ensures |out| == |entries| <==> !LosesTail(entries, capacity)
  {
    var collector := Fill(entries, capacity);
    ghost var left := if LosesTail(entries, capacity) then collector.buffer else [];
    var it := collector.Iter();
    out := Drain(it);
    LeftOut(out, left, entries);
  }

  lemma {:induction false} BufferedIsPart(entries: seq<Entry>, capacity: nat, e: Entry)
    requires e in Buffered(entries, capacity)
    ensures e in entries
  {
    var init := entries[..|entries| - 1];
    if e != entries[|entries| - 1] {
      assert e in Buffered(init, capacity);
      BufferedIsPart(init, capacity, e);
    }
  }

  /** An entry with an empty key and an empty value is lost at every capacity. */
  lemma {:induction false} EmptyEntryIsLost(capacity: nat)
    ensures Fits(Entry([], [])) && LosesTail([Entry([], [])], capacity)
  {
    var entries := [Entry([], [])];
    assert entries[..0] == [];
  }

  /** With at least one byte per entry nothing is ever lost. */
  lemma {:induction false} SizedEntriesSurvive(entries: seq<Entry>, capacity: nat)
    requires forall e :: e in entries ==> Size(e) > 0
    ensures !LosesTail(entries, capacity)
  {
    var buffer := Buffered(entries, capacity);
    if buffer != [] {
      BufferedIsPart(entries, capacity, buffer[|buffer| - 1]);
    }
  }

  /** With distinct keys the output does not depend on the capacity: it is the sorted list. */
  method CollectDistinct(entries: seq<Entry>, capacity: nat, ghost sorted: seq<Entry>) returns (out: seq<Entry>)
    requires forall e :: e in entries ==> Fits(e) && Size(e) > 0
    requires DistinctKeys(multiset(entries)) && KeySorted(sorted) && multiset(sorted) == multiset(entries)
    ensures out == sorted
  {
    out := CollectAndIterate(entries, capacity);
    SizedEntriesSurvive(entries, capacity);
    KeySortedUnique(out, sorted);
  }
}
