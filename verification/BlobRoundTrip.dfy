/** The batch read as a whole: it returns the stored payloads when git is
    faithful, and whatever it returns was framed that way. */
module BlobRoundTrip {
  import opened Options
  import opened Sequences
  import opened BlobFraming
  import opened Decimals
  import opened BlobHistory

  const MAX_OBJECT_ID: nat := 64
  const MAX_SIZE_DIGITS: nat := 56

  type Store = map<Bytes, Bytes>

  ghost predicate GoodId(id: Bytes) {
    Solid(id) && Ascii(id) && |id| <= MAX_OBJECT_ID
  }

  ghost predicate Stored(ids: seq<Bytes>, store: Store) {
    forall i :: 0 <= i < |ids| ==> ids[i] in store
  }

  function RecordFor(id: Bytes, store: Store): Record
    requires id in store
  {
    Record(BatchHeader(id, |store[id]|), store[id])
  }

  function RecordsFor(chunk: seq<Bytes>, store: Store): (r: seq<Record>)
    requires Stored(chunk, store)
    ensures |r| == |chunk|
    ensures forall i :: 0 <= i < |r| ==> r[i] == RecordFor(chunk[i], store)
  {
    seq(|chunk|, i requires 0 <= i < |chunk| => RecordFor(chunk[i], store))
  }

  ghost predicate Faithful(git: Git, store: Store) {
    forall chunk :: Stored(chunk, store) ==> git(chunk) == Exited(0, SerialAll(RecordsFor(chunk, store)))
  }

  /** The sizes reported beforehand are those of the stored payloads. */
  ghost predicate TrueSizes(ids: seq<Bytes>, sizes: Sizes, store: Store) {
    forall i :: 0 <= i < |ids| ==>
      ids[i] in store && ids[i] in sizes && sizes[ids[i]] == |store[ids[i]]|
  }

  // ------------------------------------------------- output stays under limit

  lemma {:induction false} WeightCons(id: Bytes, rest: seq<Bytes>, sizes: Sizes)
    requires id in sizes && AllKnown(rest, sizes)
    ensures AllKnown([id] + rest, sizes)
    ensures Weight([id] + rest, sizes) == BoundedSize(id, sizes) + Weight(rest, sizes)
    decreases |rest|
  {
    var all := [id] + rest;
    if rest == [] {
      assert all[..|all| - 1] == [];
    } else {
      assert all[..|all| - 1] == [id] + rest[..|rest| - 1];
      WeightCons(id, rest[..|rest| - 1], sizes);
    }
  }

  /** With ids of at most 64 bytes and sizes of at most 56 digits, the 128 bytes
      allowed per record cover the framing, so the runner's `>=` limit never
      rejects a faithful output. */
  lemma {:induction false} FaithfulOutputUnderLimit(chunk: seq<Bytes>, sizes: Sizes, store: Store)
    requires TrueSizes(chunk, sizes, store) && Stored(chunk, store) && AllKnown(chunk, sizes)
    requires forall i :: 0 <= i < |chunk| ==> |chunk[i]| <= MAX_OBJECT_ID
    requires forall i :: 0 <= i < |chunk| ==> |Decimal(|store[chunk[i]]|)| <= MAX_SIZE_DIGITS
    ensures |SerialAll(RecordsFor(chunk, store))| <= Weight(chunk, sizes)
    ensures |SerialAll(RecordsFor(chunk, store))| < MaximumOutput(chunk, sizes)
    decreases |chunk|
  {
    if chunk == [] {
    } else {
      var rest := chunk[1..];
      assert chunk == [chunk[0]] + rest;
      WeightCons(chunk[0], rest, sizes);
      assert TrueSizes(rest, sizes, store);
      FaithfulOutputUnderLimit(rest, sizes, store);
      assert RecordsFor(chunk, store)[1..] == RecordsFor(rest, store);
      assert |RecordFor(chunk[0], store).Serial()| ==
             |chunk[0]| + 6 + |Decimal(|store[chunk[0]]|)| + 1 + |store[chunk[0]]| + 1;
    }
  }

  lemma ShortSizes(n: nat)
    requires n <= MAX_HISTORY_PAYLOAD_CHUNK_BYTES
    ensures |Decimal(n)| <= 8
  {
    assert Pow10(4) == 10000;
    assert Pow10(8) == 100000000;
    TextLength(n, 8, DIGITS);
  }

  // ------------------------------------------------------------- one chunk

  lemma ChunkReadsBack(chunk: seq<Bytes>, sizes: Sizes, git: Git, store: Store, known: Payloads)
    requires TrueSizes(chunk, sizes, store) && Faithful(git, store) && NewIds(chunk, known)
    requires forall i :: 0 <= i < |chunk| ==> GoodId(chunk[i])
    requires AllKnown(chunk, sizes) && AllFit(chunk, sizes) && SizesFor(chunk, sizes)
    ensures var out := RunBounded(git, chunk, MaximumOutput(chunk, sizes));
            && Stored(chunk, store)
            && out.Some?
            && ParseFrom(GoodHeader, out.value, 0, chunk, sizes, known) ==
               Some(Extend(known, chunk, RecordsFor(chunk, store)))
  {
    var records := RecordsFor(chunk, store);
    forall i | 0 <= i < |chunk|
      ensures |Decimal(|store[chunk[i]]|)| <= 8 && RecordOf(GoodHeader, records[i], chunk[i], sizes)
    {
      assert Fits(chunk[i], sizes) && GoodId(chunk[i]);
      ShortSizes(|store[chunk[i]]|);
      BatchHeaderIsGood(chunk[i], |store[chunk[i]]|);
    }
    FaithfulOutputUnderLimit(chunk, sizes, store);
    var output := SerialAll(records);
    assert output[0..] == output;
    FramedIsAccepted(GoodHeader, output, 0, chunk, sizes, known, records);
  }

  // ------------------------------------------------------------- all chunks

  ghost predicate ChunkReady(chunk: seq<Bytes>, sizes: Sizes, store: Store) {
    && TrueSizes(chunk, sizes, store) && AllKnown(chunk, sizes) && AllFit(chunk, sizes)
    && SizesFor(chunk, sizes)
    && forall i :: 0 <= i < |chunk| ==> GoodId(chunk[i])
  }

  /** `m` holds exactly what `known` held and the stored payloads of `ids`. */
  ghost predicate Holds(m: Payloads, known: Payloads, ids: seq<Bytes>, store: Store) {
    && m.Keys == known.Keys + IdSet(ids)
    && (forall k :: k in known && k in m ==> m[k] == known[k])
    && (forall i :: 0 <= i < |ids| ==> ids[i] in store && ids[i] in m && m[ids[i]] == store[ids[i]])
  }

  lemma NewSplit(a: seq<Bytes>, b: seq<Bytes>, known: Payloads)
    requires NewIds(a + b, known)
    ensures NewIds(a, known)
    ensures forall m: Payloads :: m.Keys == known.Keys + IdSet(a) ==> NewIds(b, m)
  {
    var ab := a + b;
    assert forall i :: 0 <= i < |a| ==> a[i] == ab[i];
    assert forall i :: 0 <= i < |b| ==> b[i] == ab[|a| + i];
  }

  lemma {:induction false} CollectReadsBack(chunks: seq<seq<Bytes>>, sizes: Sizes, git: Git, store: Store,
                                            known: Payloads)
    requires AllSized(chunks, sizes) && Faithful(git, store) && NewIds(Flatten(chunks), known)
    requires AllReady(chunks, sizes, store)
    ensures var r := Collect(chunks, sizes, git, known);
            r.Some? && Holds(r.value, known, Flatten(chunks), store)
    decreases |chunks|
  {
    if chunks == [] {
    } else {
      var first, rest := chunks[0], Flatten(chunks[1..]);
      assert ChunkReady(first, sizes, store);
      NewSplit(first, rest, known);
      var m := FirstChunkReadsBack(first, sizes, git, store, known);
      CollectReadsBack(chunks[1..], sizes, git, store, m);
      HoldsTrans(Collect(chunks[1..], sizes, git, m).value, m, known, first, rest, store);
    }
  }

  lemma FirstChunkReadsBack(chunk: seq<Bytes>, sizes: Sizes, git: Git, store: Store, known: Payloads)
    returns (m: Payloads)
    requires ChunkReady(chunk, sizes, store) && Faithful(git, store) && NewIds(chunk, known)
    ensures Holds(m, known, chunk, store)
    ensures var out := RunBounded(git, chunk, MaximumOutput(chunk, sizes));
            out.Some? && ParseFrom(GoodHeader, out.value, 0, chunk, sizes, known) == Some(m)
  {
    ChunkReadsBack(chunk, sizes, git, store, known);
    var records := RecordsFor(chunk, store);
    m := Extend(known, chunk, records);
    ExtendContents(known, chunk, records);
  }

  lemma HoldsTrans(m2: Payloads, m1: Payloads, m0: Payloads, a: seq<Bytes>, b: seq<Bytes>, store: Store)
    requires Holds(m1, m0, a, store) && Holds(m2, m1, b, store)
    ensures Holds(m2, m0, a + b, store)
  {
    var ab := a + b;
    assert forall id :: id in ab <==> id in a || id in b;
    forall i | 0 <= i < |ab| ensures ab[i] in store && ab[i] in m2 && m2[ab[i]] == store[ab[i]] {
      if i < |a| { assert ab[i] == a[i]; } else { assert ab[i] == b[i - |a|]; }
    }
  }

  ghost predicate AllReady(chunks: seq<seq<Bytes>>, sizes: Sizes, store: Store) {
    forall c :: 0 <= c < |chunks| ==> ChunkReady(chunks[c], sizes, store)
  }

  lemma ChunksReady(ids: seq<Bytes>, chunks: seq<seq<Bytes>>, sizes: Sizes, store: Store)
    requires TrueSizes(ids, sizes, store) && AllKnown(ids, sizes) && AllFit(ids, sizes)
    requires forall i :: 0 <= i < |ids| ==> GoodId(ids[i])
    requires Flatten(chunks) == ids && AllSized(chunks, sizes)
    ensures AllReady(chunks, sizes, store)
  {
    forall c | 0 <= c < |chunks| ensures ChunkReady(chunks[c], sizes, store) {
      assert SizesFor(chunks[c], sizes);
      forall i | 0 <= i < |chunks[c]|
        ensures chunks[c][i] in store && sizes[chunks[c][i]] == |store[chunks[c][i]]|
        ensures Fits(chunks[c][i], sizes) && GoodId(chunks[c][i])
      {
        FlattenContains(chunks, c, i);
        var n :| 0 <= n < |ids| && ids[n] == chunks[c][i];
        assert Fits(ids[n], sizes) && GoodId(ids[n]);
      }
    }
  }

  lemma HoldsAll(m: Payloads, ids: seq<Bytes>, store: Store)
    requires Holds(m, map[], ids, store)
    ensures m.Keys == IdSet(ids)
    ensures m == map id | id in IdSet(ids) && id in store :: store[id]
  {
    forall id | id in IdSet(ids) ensures id in store && m[id] == store[id] {
      var n :| 0 <= n < |ids| && ids[n] == id;
      assert m[ids[n]] == store[ids[n]];
    }
  }

  /** Round trip: for distinct whitespace-free ids and arbitrary payload bytes
      (newlines and fake headers included) a faithful git is read back exactly. */
  lemma FaithfulHistoryReadsBack(ids: seq<Bytes>, sizes: Sizes, git: Git, store: Store)
    requires Distinct(ids) && sizes.Keys == IdSet(ids) && TrueSizes(ids, sizes, store)
    requires forall i :: 0 <= i < |ids| ==> GoodId(ids[i])
    requires AllFit(ids, sizes) && Faithful(git, store)
    ensures HistoryPayloads(ids, sizes, git) == Some(map id | id in IdSet(ids) && id in store :: store[id])
  {
    if ids == [] {
      assert sizes.Keys == {};
    } else {
      ChunksKnown(ids, sizes);
      ChunkingIsFaithful(ids, sizes);
      var chunks := Pack(ids, sizes, [], 0);
      ChunksReady(ids, chunks, sizes, store);
      CollectReadsBack(chunks, sizes, git, store, map[]);
      HoldsAll(Collect(chunks, sizes, git, map[]).value, ids, store);
    }
  }

  // ------------------------------------------------------------- the converse

  /** The process output for `chunk` consists of its records and nothing else,
      and `m` has their payloads. */
  ghost predicate Covered(git: Git, chunk: seq<Bytes>, sizes: Sizes, m: Payloads) {
    exists records :: CoveredBy(git, chunk, sizes, m, records)
  }

  ghost predicate CoveredBy(git: Git, chunk: seq<Bytes>, sizes: Sizes, m: Payloads, records: seq<Record>) {
    && RecordsOf(GoodHeader, records, chunk, sizes)
    && git(chunk) == Exited(0, SerialAll(records))
    && forall i :: 0 <= i < |chunk| ==> chunk[i] in m && m[chunk[i]] == records[i].payload
  }

  lemma {:induction false} CollectIsCovered(chunks: seq<seq<Bytes>>, sizes: Sizes, git: Git, known: Payloads)
    requires AllSized(chunks, sizes) && Collect(chunks, sizes, git, known).Some?
    ensures var m := Collect(chunks, sizes, git, known).value;
            && (forall k :: k in known ==> k in m && m[k] == known[k])
            && (forall c :: 0 <= c < |chunks| ==> Covered(git, chunks[c], sizes, m))
            && NewIds(Flatten(chunks), known)
    decreases |chunks|
  {
    if chunks == [] {
    } else {
      var m := Collect(chunks, sizes, git, known).value;
      var first := chunks[0];
      assert SizesFor(first, sizes);
      var output := RunBounded(git, first, MaximumOutput(first, sizes)).value;
      assert output[0..] == output;
      var records := AcceptedIsFramed(GoodHeader, output, 0, first, sizes, known);
      var m1 := Extend(known, first, records);
      ExtendContents(known, first, records);
      CollectIsCovered(chunks[1..], sizes, git, m1);
      assert CoveredBy(git, first, sizes, m, records);
      forall c | 0 <= c < |chunks| ensures Covered(git, chunks[c], sizes, m) {
        if c > 0 { assert Covered(git, chunks[1..][c - 1], sizes, m); }
      }
      NewJoin(first, Flatten(chunks[1..]), known, m1);
    }
  }

  lemma NewJoin(a: seq<Bytes>, b: seq<Bytes>, known: Payloads, m: Payloads)
    requires NewIds(a, known) && NewIds(b, m) && m.Keys == known.Keys + IdSet(a)
    ensures NewIds(a + b, known)
  {
    var ab := a + b;
    forall i, j | 0 <= i < j < |ab| ensures ab[i] != ab[j] {
      if i < |a| <= j { assert ab[i] in IdSet(a); assert ab[j] == b[j - |a|]; }
    }
  }

  /** Conversely, a result is only ever returned for distinct ids whose batches
      were covered exactly by headers, payloads of the declared sizes and
      separators. */
  lemma ReturnedHistoryIsCovered(ids: seq<Bytes>, sizes: Sizes, git: Git)
    requires ids != [] && HistoryPayloads(ids, sizes, git).Some?
    ensures var m := HistoryPayloads(ids, sizes, git).value;
            && AllKnown(ids, sizes) && Distinct(ids) && m.Keys == IdSet(ids)
            && (forall id :: id in m ==> id in sizes && |m[id]| == sizes[id])
            && forall c :: 0 <= c < |Pack(ids, sizes, [], 0)| ==> Covered(git, Pack(ids, sizes, [], 0)[c], sizes, m)
  {
    ChunksKnown(ids, sizes);
    ChunkingIsFaithful(ids, sizes);
    var chunks := Pack(ids, sizes, [], 0);
    CollectIsCovered(chunks, sizes, git, map[]);
    var m := HistoryPayloads(ids, sizes, git).value;
    forall id | id in m ensures id in sizes && |m[id]| == sizes[id] {
      assert id in Flatten(chunks);
      var c, i := FlattenOrigin(chunks, id);
      assert Covered(git, chunks[c], sizes, m);
      var records :| CoveredBy(git, chunks[c], sizes, m, records);
      assert RecordOf(GoodHeader, records[i], chunks[c][i], sizes);
    }
  }

  lemma {:induction false} FlattenOrigin(chunks: seq<seq<Bytes>>, id: Bytes) returns (c: nat, i: nat)
    requires id in Flatten(chunks)
    ensures c < |chunks| && i < |chunks[c]| && chunks[c][i] == id
  {
    if id in chunks[0] {
      c := 0;
      i :| 0 <= i < |chunks[0]| && chunks[0][i] == id;
    } else {
      c, i := FlattenOrigin(chunks[1..], id);
      c := c + 1;
    }
  }
}
