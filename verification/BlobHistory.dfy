/** Reading every history blob in size-bounded batches: greedy chunking, one
    bounded child process per chunk, and the caller's size guards. */
module BlobHistory {
  import opened Options
  import opened BlobFraming

  const MAX_SCANNED_BLOB_BYTES: nat := 5 * 1024 * 1024
  const MAX_HISTORY_PAYLOAD_CHUNK_BYTES: nat := 32 * 1024 * 1024
  const MAX_HISTORY_BATCH_HEADER_BYTES: nat := 128

  type Sizes = map<Bytes, int>

  // ----------------------------------------------------------------- chunking

  function BoundedSize(id: Bytes, sizes: Sizes): int
    requires id in sizes
  {
    sizes[id] + MAX_HISTORY_BATCH_HEADER_BYTES
  }

  /** The batch is refused as a whole when one blob alone breaks the bound. */
  predicate Fits(id: Bytes, sizes: Sizes)
    requires id in sizes
  {
    sizes[id] >= 0 && BoundedSize(id, sizes) <= MAX_HISTORY_PAYLOAD_CHUNK_BYTES
  }

  predicate AllKnown(ids: seq<Bytes>, sizes: Sizes) {
    forall i :: 0 <= i < |ids| ==> ids[i] in sizes
  }

  predicate AllFit(ids: seq<Bytes>, sizes: Sizes)
    requires AllKnown(ids, sizes)
  {
    forall i :: 0 <= i < |ids| ==> Fits(ids[i], sizes)
  }

  function Weight(ids: seq<Bytes>, sizes: Sizes): (w: int)
    requires AllKnown(ids, sizes)
  {
    if ids == [] then 0 else Weight(ids[..|ids| - 1], sizes) + BoundedSize(ids[|ids| - 1], sizes)
  }

  function Flatten(chunks: seq<seq<Bytes>>): seq<Bytes> {
    if chunks == [] then [] else chunks[0] + Flatten(chunks[1..])
  }

  /** The chunks closed from here on, with `current` still open. */
  function Pack(ids: seq<Bytes>, sizes: Sizes, current: seq<Bytes>, weight: int): (chunks: seq<seq<Bytes>>)
    requires AllKnown(ids, sizes)
    decreases |ids|
  {
    if ids == [] then
      if current == [] then [] else [current]
    else
      var w := BoundedSize(ids[0], sizes);
      if current != [] && weight + w > MAX_HISTORY_PAYLOAD_CHUNK_BYTES then
        [current] + Pack(ids[1..], sizes, [ids[0]], w)
      else
        Pack(ids[1..], sizes, current + [ids[0]], weight + w)
  }

  method Chunk(ids: seq<Bytes>, sizes: Sizes) returns (r: Option<seq<seq<Bytes>>>)
    requires AllKnown(ids, sizes)
    ensures r == if AllFit(ids, sizes) then Some(Pack(ids, sizes, [], 0)) else None
  {
    var chunks: seq<seq<Bytes>>, current: seq<Bytes>, currentBytes := [], [], 0;
    for i := 0 to |ids|
      invariant forall n :: 0 <= n < i ==> Fits(ids[n], sizes)
      invariant Pack(ids, sizes, [], 0) == chunks + Pack(ids[i..], sizes, current, currentBytes)
    {
      var id := ids[i];
      assert ids[i..][0] == id && ids[i..][1..] == ids[i + 1..];
      if sizes[id] < 0 { return None; }
      var boundedSize := sizes[id] + MAX_HISTORY_BATCH_HEADER_BYTES;
      if boundedSize > MAX_HISTORY_PAYLOAD_CHUNK_BYTES { return None; }
      ghost var rest := Pack(ids[i..], sizes, current, currentBytes);
      if current != [] && currentBytes + boundedSize > MAX_HISTORY_PAYLOAD_CHUNK_BYTES {
        assert rest == [current] + Pack(ids[i + 1..], sizes, [id], boundedSize);
        assert [] + [id] == [id];
        chunks := chunks + [current];
        current, currentBytes := [], 0;
      }
      current := current + [id];
      currentBytes := currentBytes + boundedSize;
    }
    assert ids[|ids|..] == [] && chunks + [] == chunks;
    if current != [] { chunks := chunks + [current]; }
    r := Some(chunks);
  }

  /** A chunk is closed only because the next blob would not fit any more. */
  ghost predicate Maximal(chunks: seq<seq<Bytes>>, sizes: Sizes) {
    forall c :: 0 <= c < |chunks| - 1 ==> Full(chunks, c, sizes)
  }

  ghost predicate Full(chunks: seq<seq<Bytes>>, c: nat, sizes: Sizes)
    requires c < |chunks| - 1
  {
    var next := chunks[c + 1];
    && AllKnown(chunks[c], sizes) && next != [] && next[0] in sizes
    && Weight(chunks[c], sizes) + BoundedSize(next[0], sizes) > MAX_HISTORY_PAYLOAD_CHUNK_BYTES
  }

  ghost predicate WithinBound(chunk: seq<Bytes>, sizes: Sizes) {
    chunk != [] && AllKnown(chunk, sizes) && Weight(chunk, sizes) <= MAX_HISTORY_PAYLOAD_CHUNK_BYTES
  }

  lemma WeightSnoc(ids: seq<Bytes>, id: Bytes, sizes: Sizes)
    requires AllKnown(ids, sizes) && id in sizes
    ensures AllKnown(ids + [id], sizes)
    ensures Weight(ids + [id], sizes) == Weight(ids, sizes) + BoundedSize(id, sizes)
  {
    assert (ids + [id])[..|ids + [id]| - 1] == ids;
  }

  /** What `Pack` may assume about the open chunk. */
  ghost predicate OpenChunk(current: seq<Bytes>, weight: int, sizes: Sizes) {
    AllKnown(current, sizes) && weight == Weight(current, sizes) && (current != [] ==> WithinBound(current, sizes))
  }

  ghost predicate AllWithin(chunks: seq<seq<Bytes>>, sizes: Sizes) {
    forall c :: 0 <= c < |chunks| ==> WithinBound(chunks[c], sizes)
  }

  lemma {:induction false} PackFlattens(ids: seq<Bytes>, sizes: Sizes, current: seq<Bytes>, weight: int)
    requires AllKnown(ids, sizes)
    ensures Flatten(Pack(ids, sizes, current, weight)) == current + ids
    decreases |ids|
  {
    if ids == [] {
      assert [current][1..] == [] && current + [] == current;
    } else {
      var id, w := ids[0], BoundedSize(ids[0], sizes);
      if current != [] && weight + w > MAX_HISTORY_PAYLOAD_CHUNK_BYTES {
        PackFlattens(ids[1..], sizes, [id], w);
        assert ([current] + Pack(ids[1..], sizes, [id], w))[1..] == Pack(ids[1..], sizes, [id], w);
        assert [id] + ids[1..] == ids;
      } else {
        PackFlattens(ids[1..], sizes, current + [id], weight + w);
        assert current + ids == (current + [id]) + ids[1..];
      }
    }
  }

  /** The open chunk, or the first id, comes first in what is packed. */
  lemma {:induction false} PackStarts(ids: seq<Bytes>, sizes: Sizes, current: seq<Bytes>, weight: int)
    requires AllKnown(ids, sizes) && current + ids != []
    ensures var chunks := Pack(ids, sizes, current, weight);
            chunks != [] && chunks[0] != [] && chunks[0][0] == (current + ids)[0]
    decreases |ids|
  {
    if ids == [] {
    } else {
      var id, w := ids[0], BoundedSize(ids[0], sizes);
      if !(current != [] && weight + w > MAX_HISTORY_PAYLOAD_CHUNK_BYTES) {
        PackStarts(ids[1..], sizes, current + [id], weight + w);
        assert current + ids == (current + [id]) + ids[1..];
      }
    }
  }

  lemma TailFits(ids: seq<Bytes>, sizes: Sizes)
    requires ids != [] && AllKnown(ids, sizes) && AllFit(ids, sizes)
    ensures AllKnown(ids[1..], sizes) && AllFit(ids[1..], sizes)
  {
    forall i | 0 <= i < |ids[1..]| ensures Fits(ids[1..][i], sizes) { assert Fits(ids[i + 1], sizes); }
  }

  lemma {:induction false} PackBounds(ids: seq<Bytes>, sizes: Sizes, current: seq<Bytes>, weight: int)
    requires AllKnown(ids, sizes) && AllFit(ids, sizes) && OpenChunk(current, weight, sizes)
    ensures AllWithin(Pack(ids, sizes, current, weight), sizes)
    ensures Maximal(Pack(ids, sizes, current, weight), sizes)
    decreases |ids|
  {
    var chunks := Pack(ids, sizes, current, weight);
    if ids == [] {
      assert |chunks| <= 1 && (|chunks| == 1 ==> chunks[0] == current != []);
    } else {
      var id, w := ids[0], BoundedSize(ids[0], sizes);
      assert Fits(id, sizes);
      TailFits(ids, sizes);
      if current != [] && weight + w > MAX_HISTORY_PAYLOAD_CHUNK_BYTES {
        OpenOne(id, sizes);
        PackBounds(ids[1..], sizes, [id], w);
        PackStarts(ids[1..], sizes, [id], w);
        ConsBounds(current, Pack(ids[1..], sizes, [id], w), sizes);
      } else {
        OpenSnoc(current, weight, id, sizes);
        PackBounds(ids[1..], sizes, current + [id], weight + w);
      }
    }
  }

  lemma OpenOne(id: Bytes, sizes: Sizes)
    requires id in sizes && Fits(id, sizes)
    ensures OpenChunk([id], BoundedSize(id, sizes), sizes)
  {
    OpenSnoc([], 0, id, sizes);
    assert [] + [id] == [id];
  }

  lemma OpenSnoc(current: seq<Bytes>, weight: int, id: Bytes, sizes: Sizes)
    requires OpenChunk(current, weight, sizes) && id in sizes && Fits(id, sizes)
    requires current == [] || weight + BoundedSize(id, sizes) <= MAX_HISTORY_PAYLOAD_CHUNK_BYTES
    ensures OpenChunk(current + [id], weight + BoundedSize(id, sizes), sizes)
  {
    WeightSnoc(current, id, sizes);
  }

  lemma ConsBounds(first: seq<Bytes>, rest: seq<seq<Bytes>>, sizes: Sizes)
    requires WithinBound(first, sizes) && AllWithin(rest, sizes) && Maximal(rest, sizes)
    requires rest != [] && rest[0] != [] && rest[0][0] in sizes
    requires Weight(first, sizes) + BoundedSize(rest[0][0], sizes) > MAX_HISTORY_PAYLOAD_CHUNK_BYTES
    ensures AllWithin([first] + rest, sizes) && Maximal([first] + rest, sizes)
  {
    var chunks := [first] + rest;
    forall c | 0 <= c < |chunks| - 1 ensures Full(chunks, c, sizes) {
      if c > 0 { assert Full(rest, c - 1, sizes); }
    }
  }

  /** Chunking loses, reorders and repeats nothing, leaves no chunk empty, keeps
      every chunk within the bound and never closes one early. */
  lemma ChunkingIsFaithful(ids: seq<Bytes>, sizes: Sizes)
    requires AllKnown(ids, sizes) && AllFit(ids, sizes)
    ensures var chunks := Pack(ids, sizes, [], 0);
            && Flatten(chunks) == ids
            && AllWithin(chunks, sizes)
            && Maximal(chunks, sizes)
  {
    PackFlattens(ids, sizes, [], 0);
    PackBounds(ids, sizes, [], 0);
    assert [] + ids == ids;
  }

  /** The caller refuses blobs over 5 MiB, so the per-blob refusal of the
      chunking loop is out of reach behind that guard. */
  lemma GuardMakesRefusalUnreachable(ids: seq<Bytes>, sizes: Sizes)
    requires AllKnown(ids, sizes)
    requires forall id :: id in sizes ==> 0 <= sizes[id] <= MAX_SCANNED_BLOB_BYTES
    ensures AllFit(ids, sizes)
  {
    forall i | 0 <= i < |ids| ensures Fits(ids[i], sizes) {
      assert sizes[ids[i]] <= MAX_SCANNED_BLOB_BYTES;
    }
  }

  // -------------------------------------------------------- the child process

  datatype Process = Crashed | Exited(code: int, stdout: Bytes)

  /** One `git cat-file --batch`, as a function of the ids written to it. */
  type Git = seq<Bytes> -> Process

  function MaximumOutput(chunk: seq<Bytes>, sizes: Sizes): int
    requires AllKnown(chunk, sizes)
  {
    Weight(chunk, sizes) + 1
  }

  /** The runner drops any output that reaches the limit. */
  function RunBounded(git: Git, chunk: seq<Bytes>, limit: int): (r: Option<Bytes>) {
    match git(chunk)
    case Crashed => None
    case Exited(code, stdout) => if |stdout| >= limit || code != 0 then None else Some(stdout)
  }

  predicate AllSized(chunks: seq<seq<Bytes>>, sizes: Sizes) {
    forall c :: 0 <= c < |chunks| ==> SizesFor(chunks[c], sizes)
  }

  function Collect(chunks: seq<seq<Bytes>>, sizes: Sizes, git: Git, payloads: Payloads): (r: Option<Payloads>)
    requires AllSized(chunks, sizes)
    decreases |chunks|
  {
    if chunks == [] then Some(payloads) else
      assert SizesFor(chunks[0], sizes);
      var output := RunBounded(git, chunks[0], MaximumOutput(chunks[0], sizes));
      if output.None? then None else
        var parsed := ParseFrom(GoodHeader, output.value, 0, chunks[0], sizes, payloads);
        if parsed.None? then None else Collect(chunks[1..], sizes, git, parsed.value)
  }

  function IdSet(ids: seq<Bytes>): (s: set<Bytes>)
    ensures forall id :: id in s <==> id in ids
  {
    set i | 0 <= i < |ids| :: ids[i]
  }

  /** What the batch read returns, for every process behaviour. */
  ghost function HistoryPayloads(ids: seq<Bytes>, sizes: Sizes, git: Git): (r: Option<Payloads>) {
    if ids == [] then
      if sizes == map[] then Some(map[]) else None
    else if sizes.Keys != IdSet(ids) || !AllFit(ids, sizes) then
      None
    else
      ChunksKnown(ids, sizes);
      var r := Collect(Pack(ids, sizes, [], 0), sizes, git, map[]);
      if r.Some? && r.value.Keys == IdSet(ids) then r else None
  }

  lemma ChunksKnown(ids: seq<Bytes>, sizes: Sizes)
    requires AllKnown(ids, sizes) && AllFit(ids, sizes)
    ensures AllSized(Pack(ids, sizes, [], 0), sizes)
  {
    ChunkingIsFaithful(ids, sizes);
    var chunks := Pack(ids, sizes, [], 0);
    forall c | 0 <= c < |chunks| ensures SizesFor(chunks[c], sizes) {
      assert WithinBound(chunks[c], sizes);
      forall i | 0 <= i < |chunks[c]| ensures sizes[chunks[c][i]] >= 0 {
        FlattenContains(chunks, c, i);
        var n :| 0 <= n < |ids| && ids[n] == chunks[c][i];
        assert Fits(ids[n], sizes);
      }
    }
  }

  lemma {:induction false} FlattenContains(chunks: seq<seq<Bytes>>, c: nat, i: nat)
    requires c < |chunks| && i < |chunks[c]|
    ensures chunks[c][i] in Flatten(chunks)
  {
    if c == 0 {
    } else {
      FlattenContains(chunks[1..], c - 1, i);
    }
  }

  method ReadHistoryPayloads(ids: seq<Bytes>, sizes: Sizes, git: Git) returns (r: Option<Payloads>)
    ensures r == HistoryPayloads(ids, sizes, git)
  {
    if ids == [] { return if sizes == map[] then Some(map[]) else None; }
    if sizes.Keys != IdSet(ids) { return None; }
    var chunked := Chunk(ids, sizes);
    if chunked.None? { return None; }
    var chunks := chunked.value;
    ChunksKnown(ids, sizes);
    assert chunks[0..] == chunks;
    var payloads: Payloads := map[];
    for c := 0 to |chunks|
      invariant AllSized(chunks[c..], sizes)
      invariant Collect(chunks, sizes, git, map[]) == Collect(chunks[c..], sizes, git, payloads)
    {
      assert chunks[c..][0] == chunks[c] && chunks[c..][1..] == chunks[c + 1..];
      assert SizesFor(chunks[c], sizes);
      var output := RunBounded(git, chunks[c], MaximumOutput(chunks[c], sizes));
      if output.None? { return None; }
      var parsed := ParseChunk(output.value, chunks[c], sizes, payloads);
      if parsed.None? { return None; }
      payloads := parsed.value;
    }
    r := if payloads.Keys == IdSet(ids) then Some(payloads) else None;
  }
}
