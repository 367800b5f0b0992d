/**
 Lineage records, their digests and the hash chain a digest names.

 SHA-256 and the canonical encodings are injective by construction: a digest carries the bytes it
 was taken of, and the bytes of a record carry the record.
*/
module Records {
  import opened Basics

  datatype Digest = Sha256(blob: Blob)

  datatype Blob = RecordBlob(record: Record) | OtherBlob(tag: nat)

  datatype Position = Position(generation: nat, digest: Digest)

  datatype Record = Record(lineage: nat, sequence: nat, prior: Option<Position>, payload: seq<byte>)

  datatype RecordError = DigestMismatch | Malformed | Incomplete

  datatype Checked<+T> = Accepted(value: T) | Rejected(error: RecordError)

  /** The objects of one lineage: immutable blobs under their digests. */
  type Objects = map<Digest, Blob>

  function DigestOf(r: Record): Digest { Sha256(RecordBlob(r)) }

  function PositionOf(r: Record): Position { Position(r.sequence, DigestOf(r)) }

  /** The shape every constructed or decoded record has. */
  predicate WellFormed(r: Record) {
    && r.sequence <= U64_MAX
    && (r.sequence == 0 ==> r.prior.None?)
    && (r.sequence > 0 ==> r.prior.Some? && r.prior.value.generation == r.sequence - 1)
  }

  /** Decode the bytes found under a digest. */
  function FromBytes(lineage: nat, expected: Digest, blob: Blob): Checked<Record> {
    if Sha256(blob) != expected then Rejected(DigestMismatch)
    else match blob
      case OtherBlob(_) => Rejected(Malformed)
      case RecordBlob(r) =>
        if r.lineage != lineage || !WellFormed(r) then Rejected(Malformed) else Accepted(r)
  }

  /** What decodes is a record of this lineage, under its own digest, that names the generation before it. */
  lemma DecodedIs(lineage: nat, expected: Digest, blob: Blob)
    ensures match FromBytes(lineage, expected, blob)
            case Accepted(r) =>
              && blob == RecordBlob(r) && expected == DigestOf(r) && r.lineage == lineage && r.sequence <= U64_MAX
              && (r.prior.None? <==> r.sequence == 0)
              && (r.prior.Some? ==> r.prior.value.generation + 1 == r.sequence)
            case Rejected(error) => error == if expected.blob != blob then DigestMismatch else Malformed
  {
  }

  /** Every record of a batch that continues a position decodes from what is published of it. */
  lemma BatchDecodes(lineage: nat, records: seq<Record>, first: nat, prior: Option<Position>, i: nat)
    requires BatchOk(lineage, records, first, prior) && i < |records|
    requires if first == 0 then prior.None? else prior.Some? && prior.value.generation == first - 1
    ensures FromBytes(lineage, DigestOf(records[i]), RecordBlob(records[i])) == Accepted(records[i])
  {
    assert LinkedAt(lineage, records, first, prior, i);
    if i > 0 { assert LinkedAt(lineage, records, first, prior, i - 1); }
  }

  // ---- Batches ------------------------------------------------------------

  /** Record `i` of a batch starting at `first` counts on from it and names the record before it. */
  predicate LinkedAt(lineage: nat, records: seq<Record>, first: nat, prior: Option<Position>, i: nat)
    requires i < |records|
  {
    && records[i].lineage == lineage
    && records[i].sequence == first + i
    && records[i].prior == if i == 0 then prior else Some(PositionOf(records[i - 1]))
  }

  /** A contiguous batch. */
  predicate Linked(lineage: nat, records: seq<Record>, first: nat, prior: Option<Position>) {
    forall i :: 0 <= i < |records| ==> LinkedAt(lineage, records, first, prior, i)
  }

  lemma LinkedPrefix(lineage: nat, records: seq<Record>, first: nat, prior: Option<Position>, n: nat)
    requires Linked(lineage, records, first, prior) && n <= |records|
    ensures Linked(lineage, records[..n], first, prior)
  {
    forall i | 0 <= i < n ensures LinkedAt(lineage, records[..n], first, prior, i) {
      assert LinkedAt(lineage, records, first, prior, i);
    }
  }

  lemma LinkedSnoc(lineage: nat, records: seq<Record>, first: nat, prior: Option<Position>)
    requires records != []
    requires Linked(lineage, records[..|records| - 1], first, prior)
    requires LinkedAt(lineage, records, first, prior, |records| - 1)
    ensures Linked(lineage, records, first, prior)
  {
    forall i | 0 <= i < |records| ensures LinkedAt(lineage, records, first, prior, i) {
      if i < |records| - 1 {
        assert LinkedAt(lineage, records[..|records| - 1], first, prior, i);
      }
    }
  }

  /** A batch of at least one record, linked, and followed by a representable generation. */
  predicate BatchOk(lineage: nat, records: seq<Record>, first: nat, prior: Option<Position>) {
    records != [] && Linked(lineage, records, first, prior) && first + |records| <= U64_MAX
  }

  /** What validation accepts: such a batch, or an empty one that has a position to follow. */
  predicate BatchPasses(lineage: nat, records: seq<Record>, first: nat, prior: Option<Position>) {
    if records == [] then prior.Some? else BatchOk(lineage, records, first, prior)
  }

  method ValidateRecordBatch(lineage: nat, records: seq<Record>, first: nat, prior: Option<Position>)
    returns (terminal: Checked<Position>)
    ensures terminal.Accepted? <==> BatchPasses(lineage, records, first, prior)
    ensures terminal.Accepted? ==>
      Some(terminal.value) == if records == [] then prior else Some(PositionOf(records[|records| - 1]))
    ensures terminal.Rejected? ==> terminal.error == Malformed
  {
    var generation := first;
    var last := prior;
    for k := 0 to |records|
      invariant generation == first + k
      invariant last == if k == 0 then prior else Some(PositionOf(records[k - 1]))
      invariant Linked(lineage, records[..k], first, prior)
      invariant k > 0 ==> generation <= U64_MAX
    {
      var record := records[k];
      assert LinkedAt(lineage, records, first, prior, k) <==>
        record.lineage == lineage && record.sequence == generation && record.prior == last;
      if record.lineage != lineage || record.sequence != generation || record.prior != last {
        return Rejected(Malformed);
      }
      last := Some(Position(generation, DigestOf(record)));
      if generation >= U64_MAX {
        return Rejected(Malformed);
      }
      generation := generation + 1;
      assert records[..k + 1][..k] == records[..k];
      assert LinkedAt(lineage, records[..k + 1], first, prior, k);
      LinkedSnoc(lineage, records[..k + 1], first, prior);
    }
    assert records[..|records|] == records;
    return if last.None? then Rejected(Malformed) else Accepted(last.value);
  }

  // ---- The chain a digest names -------------------------------------------

  /** The whole history below a digest, oldest first; None when the chain is broken. */
  function Chain(lineage: nat, d: Digest): (c: Option<seq<Record>>)
    ensures c.Some? ==> |c.value| > 0 && DigestOf(c.value[|c.value| - 1]) == d
    ensures c.Some? ==> |c.value| == c.value[|c.value| - 1].sequence + 1
    decreases d
  {
    match d.blob
    case OtherBlob(_) => None
    case RecordBlob(r) =>
      if r.lineage != lineage || !WellFormed(r) then None
      else match r.prior
        case None => Some([r])
        case Some(p) =>
          var below := Chain(lineage, p.digest);
          if below.Some? && |below.value| == r.sequence then Some(below.value + [r]) else None
  }

  /** Every record of the chain is stored under its digest. */
  ghost predicate Stored(objects: Objects, d: Digest)
    decreases d
  {
    && d in objects && objects[d] == d.blob
    && (d.blob.RecordBlob? && d.blob.record.prior.Some? ==> Stored(objects, d.blob.record.prior.value.digest))
  }

  ghost predicate Includes(a: Objects, b: Objects) {
    forall d :: d in a ==> d in b && b[d] == a[d]
  }

  lemma StoredGrows(a: Objects, b: Objects, d: Digest)
    requires Stored(a, d) && Includes(a, b)
    ensures Stored(b, d)
    decreases d
  {
  }

  /** A chain is indexed by sequence and linked from its first record on. */
  lemma {:induction false} ChainIsLinked(lineage: nat, d: Digest)
    requires Chain(lineage, d).Some?
    ensures Linked(lineage, Chain(lineage, d).value, 0, None)
    decreases d
  {
    var r, c := d.blob.record, Chain(lineage, d).value;
    if r.prior.Some? {
      ChainIsLinked(lineage, r.prior.value.digest);
      assert c[..|c| - 1] == Chain(lineage, r.prior.value.digest).value;
    }
    LinkedSnoc(lineage, c, 0, None);
  }

  /** One record on top of a chain. */
  lemma ChainSnoc(lineage: nat, below: seq<Record>, r: Record)
    requires below == [] || Chain(lineage, DigestOf(below[|below| - 1])) == Some(below)
    requires r.lineage == lineage && r.sequence == |below| <= U64_MAX
    requires r.prior == if below == [] then None else Some(PositionOf(below[|below| - 1]))
    ensures Chain(lineage, DigestOf(r)) == Some(below + [r])
  {
    assert [] + [r] == [r];
  }

  lemma Regroup<T>(a: seq<T>, b: seq<T>, c: seq<T>)
    ensures a + (b + c) == (a + b) + c
  {
  }

  /** Publishing a linked batch on top of a chain yields exactly that chain followed by the batch. */
  lemma {:induction false} ChainOfBatch(lineage: nat, below: seq<Record>, records: seq<Record>)
    requires records != []
    requires Linked(lineage, records, |below|, if below == [] then None else Some(PositionOf(below[|below| - 1])))
    requires |below| + |records| <= U64_MAX + 1
    requires below == [] || Chain(lineage, DigestOf(below[|below| - 1])) == Some(below)
    ensures Chain(lineage, DigestOf(records[|records| - 1])) == Some(below + records)
    decreases |records|
  {
    var n := |records| - 1;
    var last := records[n];
    var prior := if below == [] then None else Some(PositionOf(below[|below| - 1]));
    assert LinkedAt(lineage, records, |below|, prior, n);
    hide Chain, DigestOf;
    if n == 0 {
      ChainSnoc(lineage, below, last);
      assert records == [last];
    } else {
      var init := records[..n];
      LinkedPrefix(lineage, records, |below|, prior, n);
      ChainOfBatch(lineage, below, init);
      assert (below + init)[|below + init| - 1] == init[n - 1];
      ChainSnoc(lineage, below + init, last);
      assert records == init + [last];
      Regroup(below, init, [last]);
    }
  }
}
