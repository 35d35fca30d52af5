/** The length-prefixed batch format of `git cat-file --batch` and the parser
    that reads it back: header line, payload of the declared size, newline. */
module BlobFraming {
  import opened Decimals
  import opened Options
  import opened Sequences

  newtype byte = x: int | 0 <= x < 256

  type Bytes = seq<byte>

  const NEWLINE: byte := 10
  const BLOB: Bytes := [98, 108, 111, 98]
  /** Longest digit string Python converts to an integer. */
  const MAX_INT_DIGITS: nat := 4300

  // ------------------------------------------------- Python's byte primitives

  predicate IsByteSpace(b: byte) { 9 <= b <= 13 || b == 32 }

  predicate Ascii(s: Bytes) { forall i :: 0 <= i < |s| ==> s[i] < 128 }

  predicate Solid(s: Bytes) { s != [] && forall i :: 0 <= i < |s| ==> !IsByteSpace(s[i]) }

  function SkipSpaces(s: Bytes): (r: Bytes)
    ensures |r| <= |s|
    ensures r != [] ==> !IsByteSpace(r[0])
  {
    if s != [] && IsByteSpace(s[0]) then SkipSpaces(s[1..]) else s
  }

  function TokenLength(s: Bytes): (n: nat)
    ensures n <= |s|
    ensures s != [] && !IsByteSpace(s[0]) ==> n > 0
  {
    if s != [] && !IsByteSpace(s[0]) then 1 + TokenLength(s[1..]) else 0
  }

  /** `line.split()`: the maximal runs of non-space bytes. */
  function Split(line: Bytes): (fields: seq<Bytes>)
    decreases |line|
  {
    var t := SkipSpaces(line);
    if t == [] then [] else
      var n := TokenLength(t);
      [t[..n]] + Split(t[n..])
  }

  predicate IsDigit(b: byte) { 48 <= b <= 57 }

  /** Digits with single underscores between them, as `int()` reads them. */
  function DigitsValue(s: Bytes): (r: Option<int>)
    ensures r.Some? ==> r.value >= 0
    decreases |s|
  {
    if s == [] || !IsDigit(s[|s| - 1]) then None else
      var d := (s[|s| - 1] - 48) as int;
      var rest := s[..|s| - 1];
      if rest == [] then Some(d) else
        var high := DigitsValue(if rest[|rest| - 1] == 95 then rest[..|rest| - 1] else rest);
        if high.None? then None else Some(10 * high.value + d)
  }

  function DigitCount(s: Bytes): nat {
    if s == [] then 0 else (if IsDigit(s[0]) then 1 else 0) + DigitCount(s[1..])
  }

  /** `int(s)` on a byte string without spaces. */
  function ParseInt(s: Bytes): (r: Option<int>) {
    var signed := s != [] && (s[0] == 43 || s[0] == 45);
    var digits := if signed then s[1..] else s;
    var v := if DigitCount(digits) > MAX_INT_DIGITS then None else DigitsValue(digits);
    if v.None? then None
    else if signed && s[0] == 45 then Some(-v.value)
    else Some(v.value)
  }

  /** Index of the first newline at or after `from`, or -1. */
  function FindNewline(s: Bytes, from: nat): (r: int)
    requires from <= |s|
    ensures r == -1 || (from <= r < |s| && s[r] == NEWLINE)
    ensures forall i :: from <= i < (if r < 0 then |s| else r) ==> s[i] != NEWLINE
    decreases |s| - from
  {
    if from == |s| then -1 else if s[from] == NEWLINE then from else FindNewline(s, from + 1)
  }

  // --------------------------------------------------------------- the parser

  /** The header names the expected blob and the expected size. */
  predicate GoodHeader(header: Bytes, expected: Bytes, size: int) {
    var f := Split(header);
    |f| == 3 && Ascii(f[0]) && f[0] == expected && f[1] == BLOB && ParseInt(f[2]) == Some(size)
  }

  /** Whether a header line is the one expected for an id and a size. The
      framing facts below hold for any such test. */
  type HeaderTest = (Bytes, Bytes, int) -> bool

  type Payloads = map<Bytes, Bytes>

  predicate SizesFor(ids: seq<Bytes>, sizes: map<Bytes, int>) {
    forall i :: 0 <= i < |ids| ==> ids[i] in sizes && sizes[ids[i]] >= 0
  }

  /** A record that was read: its payload and the position after it. */
  datatype Found = Found(payload: Bytes, next: nat)

  function NextRecord(good: HeaderTest, output: Bytes, cursor: nat, expected: Bytes, size: int): (r: Option<Found>)
    requires cursor <= |output| && size >= 0
    ensures r.Some? ==> cursor < r.value.next <= |output|
  {
    var stop := FindNewline(output, cursor);
    if stop < 0 || !good(output[cursor..stop], expected, size) then None else
      var start := stop + 1;
      var end := start + size;
      if end >= |output| || output[end] != NEWLINE then None
      else Some(Found(output[start..end], end + 1))
  }

  /** Reads the records of `ids` from position `cursor` to the very end. */
  function ParseFrom(good: HeaderTest, output: Bytes, cursor: nat, ids: seq<Bytes>, sizes: map<Bytes, int>,
                     payloads: Payloads): (r: Option<Payloads>)
    requires cursor <= |output| && SizesFor(ids, sizes)
    decreases |ids|
  {
    if ids == [] then
      if cursor == |output| then Some(payloads) else None
    else
      var found := NextRecord(good, output, cursor, ids[0], sizes[ids[0]]);
      if found.None? || ids[0] in payloads then None
      else ParseFrom(good, output, found.value.next, ids[1..], sizes, payloads[ids[0] := found.value.payload])
  }

  /** The output goes on, from `cursor`, with a header line for this id and size,
      a payload of that size and a newline, and `found` is what follows from it. */
  ghost predicate RecordAt(good: HeaderTest, output: Bytes, cursor: nat, id: Bytes, size: int, header: Bytes,
                           found: Found)
  {
    && NEWLINE !in header && good(header, id, size) && |found.payload| == size
    && cursor <= found.next <= |output|
    && output[cursor..found.next] == header + [NEWLINE] + found.payload + [NEWLINE]
  }

  /** A reading that succeeds exactly when such a record is there, and then is that
      record. */
  ghost predicate Reads(good: HeaderTest, output: Bytes, cursor: nat, id: Bytes, size: int, r: Option<Found>) {
    && (r.Some? ==> exists header :: RecordAt(good, output, cursor, id, size, header, r.value))
    && (forall header, found :: RecordAt(good, output, cursor, id, size, header, found) ==> r == Some(found))
  }

  /** The payload may hold newlines and headers of its own. */
  method ReadRecord(output: Bytes, cursor: nat, expected: Bytes, expectedSize: int) returns (r: Option<Found>)
    requires cursor <= |output| && expectedSize >= 0
    ensures Reads(GoodHeader, output, cursor, expected, expectedSize, r)
  {
    NextRecordIsFramed(GoodHeader, output, cursor, expected, expectedSize);
    var headerEnd := FindNewline(output, cursor);
    if headerEnd < 0 { return None; }
    var good := ReadHeader(output[cursor..headerEnd], expected, expectedSize);
    if !good { return None; }
    var start := headerEnd + 1;
    var end := start + expectedSize;
    if end >= |output| || output[end] != NEWLINE { return None; }
    r := Some(Found(output[start..end], end + 1));
  }

  method ReadHeader(line: Bytes, expected: Bytes, expectedSize: int) returns (good: bool)
    ensures good <==> GoodHeader(line, expected, expectedSize)
  {
    var header := Split(line);
    if |header| != 3 { return false; }
    var rawObject, objectType, rawSize := header[0], header[1], header[2];
    var size := ParseInt(rawSize);
    if !Ascii(rawObject) || size.None? { return false; }
    good := rawObject == expected && objectType == BLOB && size.value == expectedSize;
  }

  method ParseChunk(output: Bytes, chunk: seq<Bytes>, sizes: map<Bytes, int>, known: Payloads)
    returns (r: Option<Payloads>)
    requires SizesFor(chunk, sizes)
    ensures r == ParseFrom(GoodHeader, output, 0, chunk, sizes, known)
  {
    var cursor: nat, payloads := 0, known;
    for i := 0 to |chunk|
      invariant cursor <= |output|
      invariant ParseFrom(GoodHeader, output, 0, chunk, sizes, known) ==
                ParseFrom(GoodHeader, output, cursor, chunk[i..], sizes, payloads)
    {
      assert chunk[i..][0] == chunk[i] && chunk[i..][1..] == chunk[i + 1..];
      var found := ReadRecord(output, cursor, chunk[i], sizes[chunk[i]]);
      OneReading(GoodHeader, output, cursor, chunk[i], sizes[chunk[i]], found);
      if found.None? || chunk[i] in payloads { return None; }
      payloads := payloads[chunk[i] := found.value.payload];
      cursor := found.value.next;
    }
    if cursor != |output| { return None; }
    r := Some(payloads);
  }

  // -------------------------------------- accepted outputs are exactly framed

  datatype Record = Record(header: Bytes, payload: Bytes) {
    function Serial(): Bytes { header + [NEWLINE] + payload + [NEWLINE] }
  }

  function SerialAll(records: seq<Record>): (r: Bytes) {
    if records == [] then [] else records[0].Serial() + SerialAll(records[1..])
  }

  ghost predicate RecordOf(good: HeaderTest, r: Record, id: Bytes, sizes: map<Bytes, int>) {
    && NEWLINE !in r.header
    && id in sizes && sizes[id] == |r.payload|
    && good(r.header, id, sizes[id])
  }

  /** One record for each id, in order. */
  ghost predicate RecordsOf(good: HeaderTest, records: seq<Record>, ids: seq<Bytes>, sizes: map<Bytes, int>) {
    |records| == |ids| && forall i :: 0 <= i < |ids| ==> RecordOf(good, records[i], ids[i], sizes)
  }

  ghost predicate NewIds(ids: seq<Bytes>, payloads: Payloads) {
    Distinct(ids) && forall i :: 0 <= i < |ids| ==> ids[i] !in payloads
  }

  function Extend(payloads: Payloads, ids: seq<Bytes>, records: seq<Record>): (m: Payloads)
    requires |ids| == |records|
    decreases |ids|
  {
    if ids == [] then payloads
    else Extend(payloads[ids[0] := records[0].payload], ids[1..], records[1..])
  }

  lemma {:induction false} ExtendContents(payloads: Payloads, ids: seq<Bytes>, records: seq<Record>)
    requires |ids| == |records| && NewIds(ids, payloads)
    ensures var m := Extend(payloads, ids, records);
            && m.Keys == payloads.Keys + (set i | 0 <= i < |ids| :: ids[i])
            && (forall k :: k in payloads ==> m[k] == payloads[k])
            && (forall i :: 0 <= i < |ids| ==> m[ids[i]] == records[i].payload)
    decreases |ids|
  {
    if ids == [] {
    } else {
      var p := payloads[ids[0] := records[0].payload];
      ExtendContents(p, ids[1..], records[1..]);
      var m := Extend(p, ids[1..], records[1..]);
      assert m.Keys == p.Keys + (set i | 0 <= i < |ids[1..]| :: ids[1..][i]);
      forall k ensures k in m <==> k in payloads.Keys + (set i | 0 <= i < |ids| :: ids[i]) {
        if exists i :: 0 <= i < |ids| && ids[i] == k {
          var i :| 0 <= i < |ids| && ids[i] == k;
          if i > 0 { assert ids[1..][i - 1] == k; }
        }
      }
      forall i | 0 <= i < |ids| ensures m[ids[i]] == records[i].payload {
        if i > 0 { assert ids[1..][i - 1] == ids[i] && records[1..][i - 1] == records[i]; }
      }
    }
  }

  /** The first record at the cursor, when the rest of the output starts with it. */
  lemma FirstRecord(output: Bytes, cursor: nat, r: Record, tail: Bytes)
    requires cursor <= |output| && output[cursor..] == r.Serial() + tail && NEWLINE !in r.header
    ensures var stop := FindNewline(output, cursor);
            && stop == cursor + |r.header|
            && output[cursor..stop] == r.header
            && stop + 1 + |r.payload| < |output|
            && output[stop + 1..stop + 1 + |r.payload|] == r.payload
            && output[stop + 1 + |r.payload|] == NEWLINE
            && output[stop + 1 + |r.payload| + 1..] == tail
  {
    var rest := output[cursor..];
    var h, p := |r.header|, |r.payload|;
    assert |rest| == h + 1 + p + 1 + |tail|;
    forall i | cursor <= i < cursor + h ensures output[i] != NEWLINE {
      assert output[i] == rest[i - cursor] == r.header[i - cursor];
    }
    assert output[cursor + h] == rest[h] == NEWLINE;
    assert rest[..h] == r.header;
    assert rest[h + 1..h + 1 + p] == r.payload;
    assert rest[h + 1 + p] == NEWLINE;
    assert rest[h + 1 + p + 1..] == tail;
    assert output[cursor..cursor + h] == rest[..h];
    assert output[cursor + h + 1..cursor + h + 1 + p] == rest[h + 1..h + 1 + p];
    assert output[cursor + h + 1 + p + 1..] == rest[h + 1 + p + 1..];
  }

  /** Completeness: a framed output is read back record by record. */
  lemma {:induction false} FramedIsAccepted(good: HeaderTest, output: Bytes, cursor: nat, ids: seq<Bytes>,
                                            sizes: map<Bytes, int>, payloads: Payloads, records: seq<Record>)
    requires cursor <= |output| && SizesFor(ids, sizes) && RecordsOf(good, records, ids, sizes)
    requires NewIds(ids, payloads) && output[cursor..] == SerialAll(records)
    ensures ParseFrom(good, output, cursor, ids, sizes, payloads) == Some(Extend(payloads, ids, records))
    decreases |ids|
  {
    if ids == [] {
    } else {
      var r := records[0];
      var next, more := cursor + |r.header| + 1 + |r.payload| + 1, payloads[ids[0] := r.payload];
      TailOfRecords(good, records, ids, sizes);
      assert next <= |output| && output[next..] == SerialAll(records[1..]) &&
             ParseFrom(good, output, cursor, ids, sizes, payloads) ==
             ParseFrom(good, output, next, ids[1..], sizes, more) by {
        assert RecordOf(good, r, ids[0], sizes);
        ReadFirst(good, output, cursor, r, ids[0], SerialAll(records[1..]));
        ParseOne(good, output, cursor, ids, sizes, payloads, Found(r.payload, next));
      }
      TailOfNew(ids, payloads, r.payload);
      FramedIsAccepted(good, output, next, ids[1..], sizes, more, records[1..]);
    }
  }

  lemma ParseOne(good: HeaderTest, output: Bytes, cursor: nat, ids: seq<Bytes>, sizes: map<Bytes, int>,
                 payloads: Payloads, found: Found)
    requires cursor <= |output| && ids != [] && SizesFor(ids, sizes) && found.next <= |output|
    requires NextRecord(good, output, cursor, ids[0], sizes[ids[0]]) == Some(found) && ids[0] !in payloads
    ensures ParseFrom(good, output, cursor, ids, sizes, payloads) ==
            ParseFrom(good, output, found.next, ids[1..], sizes, payloads[ids[0] := found.payload])
  {
  }

  lemma ReadFirst(good: HeaderTest, output: Bytes, cursor: nat, r: Record, id: Bytes, tail: Bytes)
    requires cursor <= |output| && output[cursor..] == r.Serial() + tail && NEWLINE !in r.header
    requires good(r.header, id, |r.payload|)
    ensures var next := cursor + |r.header| + 1 + |r.payload| + 1;
            && next <= |output|
            && NextRecord(good, output, cursor, id, |r.payload|) == Some(Found(r.payload, next))
            && output[next..] == tail
  {
    FirstRecord(output, cursor, r, tail);
  }

  lemma TailOfRecords(good: HeaderTest, records: seq<Record>, ids: seq<Bytes>, sizes: map<Bytes, int>)
    requires ids != [] && RecordsOf(good, records, ids, sizes) && SizesFor(ids, sizes)
    ensures RecordsOf(good, records[1..], ids[1..], sizes) && SizesFor(ids[1..], sizes)
  {
    forall i | 0 <= i < |ids[1..]| ensures RecordOf(good, records[1..][i], ids[1..][i], sizes) {
      assert RecordOf(good, records[i + 1], ids[i + 1], sizes);
    }
  }

  lemma TailOfNew(ids: seq<Bytes>, payloads: Payloads, payload: Bytes)
    requires ids != [] && NewIds(ids, payloads)
    ensures NewIds(ids[1..], payloads[ids[0] := payload])
  {
  }

  /** Soundness: whatever is accepted is covered exactly by records of the
      expected blobs, with nothing before, between or after them. */
  lemma {:induction false} AcceptedIsFramed(good: HeaderTest, output: Bytes, cursor: nat, ids: seq<Bytes>,
                                            sizes: map<Bytes, int>, payloads: Payloads)
    returns (records: seq<Record>)
    requires cursor <= |output| && SizesFor(ids, sizes)
    requires ParseFrom(good, output, cursor, ids, sizes, payloads).Some?
    ensures RecordsOf(good, records, ids, sizes) && NewIds(ids, payloads)
    ensures output[cursor..] == SerialAll(records)
    ensures ParseFrom(good, output, cursor, ids, sizes, payloads) == Some(Extend(payloads, ids, records))
    decreases |ids|
  {
    records := [];
    if ids == [] {
    } else {
      var found := NextRecord(good, output, cursor, ids[0], sizes[ids[0]]).value;
      var r := ShapeOfRead(good, output, cursor, ids[0], sizes[ids[0]]);
      var rest := AcceptedIsFramed(good, output, found.next, ids[1..], sizes, payloads[ids[0] := r.payload]);
      records := [r] + rest;
      assert records[1..] == rest && records[0] == r;
      ConsNew(ids, payloads, r.payload);
      assert RecordOf(good, r, ids[0], sizes);
      forall i | 0 <= i < |ids| ensures RecordOf(good, records[i], ids[i], sizes) {
        if i > 0 { assert ids[i] == ids[1..][i - 1] && records[i] == rest[i - 1]; }
      }
    }
  }

  lemma ShapeOfRead(good: HeaderTest, output: Bytes, cursor: nat, id: Bytes, size: int) returns (r: Record)
    requires cursor <= |output| && size >= 0 && NextRecord(good, output, cursor, id, size).Some?
    ensures var found := NextRecord(good, output, cursor, id, size).value;
            && r.payload == found.payload && |r.payload| == size
            && NEWLINE !in r.header && good(r.header, id, size)
            && output[cursor..] == r.Serial() + output[found.next..]
  {
    var stop := FindNewline(output, cursor);
    var end := stop + 1 + size;
    r := Record(output[cursor..stop], output[stop + 1..end]);
    assert output[cursor..] == r.Serial() + output[end + 1..];
  }

  lemma NextRecordIsFramed(good: HeaderTest, output: Bytes, cursor: nat, id: Bytes, size: int)
    requires cursor <= |output| && size >= 0
    ensures Reads(good, output, cursor, id, size, NextRecord(good, output, cursor, id, size))
  {
    var r := NextRecord(good, output, cursor, id, size);
    if r.Some? {
      var record := ShapeOfRead(good, output, cursor, id, size);
      assert output[cursor..r.value.next] == output[cursor..][..r.value.next - cursor] == record.Serial();
      assert RecordAt(good, output, cursor, id, size, record.header, r.value);
    }
    forall header, found | RecordAt(good, output, cursor, id, size, header, found) ensures r == Some(found) {
      RecordIsFound(good, output, cursor, id, size, header, found);
    }
  }

  lemma RecordIsFound(good: HeaderTest, output: Bytes, cursor: nat, id: Bytes, size: int, header: Bytes, found: Found)
    requires cursor <= |output| && size >= 0 && RecordAt(good, output, cursor, id, size, header, found)
    ensures NextRecord(good, output, cursor, id, size) == Some(found)
  {
    var record := Record(header, found.payload);
    assert output[cursor..] == output[cursor..found.next] + output[found.next..];
    FirstRecord(output, cursor, record, output[found.next..]);
  }

  /** There is only one such reading. */
  lemma OneReading(good: HeaderTest, output: Bytes, cursor: nat, id: Bytes, size: int, r: Option<Found>)
    requires cursor <= |output| && size >= 0 && Reads(good, output, cursor, id, size, r)
    ensures r == NextRecord(good, output, cursor, id, size)
  {
    NextRecordIsFramed(good, output, cursor, id, size);
  }

  lemma ConsNew(ids: seq<Bytes>, payloads: Payloads, payload: Bytes)
    requires ids != [] && ids[0] !in payloads && NewIds(ids[1..], payloads[ids[0] := payload])
    ensures NewIds(ids, payloads)
  {
    forall i, j | 0 <= i < j < |ids| ensures ids[i] != ids[j] {
      assert ids[j] == ids[1..][j - 1];
      if i > 0 { assert ids[i] == ids[1..][i - 1]; }
    }
    forall i | 0 <= i < |ids| ensures ids[i] !in payloads {
      if i > 0 { assert ids[i] == ids[1..][i - 1]; }
    }
  }

  /** The parser accepts exactly the framed outputs, and returns their payloads. */
  lemma AcceptedIffFramed(good: HeaderTest, output: Bytes, ids: seq<Bytes>, sizes: map<Bytes, int>, known: Payloads)
    requires SizesFor(ids, sizes)
    ensures ParseFrom(good, output, 0, ids, sizes, known).Some? <==>
            NewIds(ids, known) &&
            exists records :: RecordsOf(good, records, ids, sizes) && output == SerialAll(records)
    ensures forall records :: RecordsOf(good, records, ids, sizes) && output == SerialAll(records) && NewIds(ids, known)
              ==> ParseFrom(good, output, 0, ids, sizes, known) == Some(Extend(known, ids, records))
  {
    assert output[0..] == output;
    if ParseFrom(good, output, 0, ids, sizes, known).Some? {
      var records := AcceptedIsFramed(good, output, 0, ids, sizes, known);
    }
    forall records | RecordsOf(good, records, ids, sizes) && output == SerialAll(records) && NewIds(ids, known)
      ensures ParseFrom(good, output, 0, ids, sizes, known) == Some(Extend(known, ids, records))
    {
      FramedIsAccepted(good, output, 0, ids, sizes, known, records);
    }
  }

  // ------------------------------------------------ what a faithful git writes

  const DIGITS: Bytes := [48, 49, 50, 51, 52, 53, 54, 55, 56, 57]

  function Decimal(n: nat): (r: Bytes)
    ensures r != [] && forall i :: 0 <= i < |r| ==> IsDigit(r[i])
  {
    DecimalDigits(n);
    Text(n, DIGITS)
  }

  lemma DecimalDigits(n: nat)
    ensures forall i :: 0 <= i < |Text(n, DIGITS)| ==> IsDigit(Text(n, DIGITS)[i])
  {
    forall i | 0 <= i < |Text(n, DIGITS)| ensures IsDigit(Text(n, DIGITS)[i]) { TextSymbols(n, DIGITS, i); }
  }

  lemma DigitAt(d: nat)
    requires d < 10
    ensures DIGITS[d] == (48 + d) as byte
  {
    assert DIGITS[d] as int == 48 + d;
  }

  /** The last digit is split off. */
  lemma LastDigit(n: nat)
    requires n >= 10
    ensures Decimal(n) == Decimal(n / 10) + [(48 + n % 10) as byte]
  {
    DigitAt(n % 10);
  }

  function BatchHeader(id: Bytes, size: nat): Bytes {
    id + [32] + BLOB + [32] + Decimal(size)
  }

  lemma {:induction false} DecimalParses(n: nat)
    ensures DigitsValue(Decimal(n)) == Some(n)
  {
    if n < 10 {
      OneDigit(n);
    } else {
      DecimalParses(n / 10);
      LastDigit(n);
      MoreDigits(Decimal(n / 10), n / 10, n % 10);
    }
  }

  lemma OneDigit(d: nat)
    requires d < 10
    ensures DigitsValue(Decimal(d)) == Some(d)
  {
    DigitAt(d);
    var s := Decimal(d);
    assert s == [(48 + d) as byte] && s[..0] == [];
  }

  lemma MoreDigits(s: Bytes, v: nat, d: nat)
    requires s != [] && IsDigit(s[|s| - 1]) && DigitsValue(s) == Some(v) && d < 10
    ensures DigitsValue(s + [(48 + d) as byte]) == Some(10 * v + d)
  {
    var b := (48 + d) as byte;
    var t := s + [b];
    assert t[..|t| - 1] == s && t[|t| - 1] == b;
    assert (b - 48) as int == d;
    WithoutUnderscore(t, s);
  }

  lemma WithoutUnderscore(t: Bytes, rest: Bytes)
    requires |t| == |rest| + 1 && t[..|rest|] == rest && rest != [] && IsDigit(rest[|rest| - 1])
    requires IsDigit(t[|rest|]) && DigitsValue(rest).Some?
    ensures DigitsValue(t) == Some(10 * DigitsValue(rest).value + (t[|rest|] - 48) as int)
  {
    assert t[..|t| - 1] == rest && rest[|rest| - 1] != 95;
  }

  lemma {:induction false} DigitCountBound(s: Bytes)
    ensures DigitCount(s) <= |s|
  {
    if s == [] {
    } else {
      DigitCountBound(s[1..]);
    }
  }

  lemma {:induction false} TokenOfSolid(s: Bytes, tail: Bytes)
    requires (forall i :: 0 <= i < |s| ==> !IsByteSpace(s[i])) && (tail == [] || IsByteSpace(tail[0]))
    ensures TokenLength(s + tail) == |s|
  {
    if s == [] {
      assert s + tail == tail;
    } else {
      assert (s + tail)[1..] == s[1..] + tail;
      TokenOfSolid(s[1..], tail);
    }
  }

  /** A solid field followed by one space is split off. */
  lemma SplitOff(field: Bytes, tail: Bytes)
    requires Solid(field)
    ensures Split(field + [32] + tail) == [field] + Split(tail)
    ensures Split(field) == [field]
  {
    var line := field + [32] + tail;
    assert line == field + ([32] + tail);
    TokenOfSolid(field, [32] + tail);
    assert SkipSpaces(line) == line && line[..|field|] == field && line[|field|..] == [32] + tail;
    SplitSkipsSpace(tail);
    TokenOfSolid(field, []);
    assert field + [] == field && field[..|field|] == field && field[|field|..] == [];
  }

  lemma SplitSkipsSpace(tail: Bytes)
    ensures Split([32] + tail) == Split(tail)
  {
    assert ([32] + tail)[1..] == tail;
  }

  lemma BatchHeaderIsGood(id: Bytes, size: nat)
    requires Solid(id) && Ascii(id) && |Decimal(size)| <= MAX_INT_DIGITS
    ensures GoodHeader(BatchHeader(id, size), id, size)
    ensures NEWLINE !in BatchHeader(id, size)
  {
    var digits := Decimal(size);
    HeaderFields(id, digits);
    DecimalParses(size);
    DigitCountBound(digits);
    assert IsDigit(digits[0]);
  }

  lemma HeaderFields(id: Bytes, digits: Bytes)
    requires Solid(id) && Solid(digits)
    ensures Split(id + [32] + BLOB + [32] + digits) == [id, BLOB, digits]
  {
    assert Solid(BLOB);
    ThreeFields(id, BLOB, digits);
  }

  lemma ThreeFields(a: Bytes, b: Bytes, c: Bytes)
    requires Solid(a) && Solid(b) && Solid(c)
    ensures Split(a + [32] + b + [32] + c) == [a, b, c]
  {
    assert a + [32] + b + [32] + c == a + [32] + (b + [32] + c);
    SplitOff(a, b + [32] + c);
    SplitOff(b, c);
    SplitOff(c, []);
  }
}
