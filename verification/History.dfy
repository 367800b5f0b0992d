/**
 Reading a lineage back: the history walk, projections of it, and the folds over both.

 Records are never deleted, but others keep publishing while a walk is under way, so every read
 below sees a store that may have grown since the read before it.
*/
module History {
  import opened Basics
  import opened EraStore
  import opened Records
  import opened Lineage
  import opened LineageProofs

  datatype Fetched = Bytes(blob: Blob) | NotFound | Failed

  /** The record objects of a lineage, with what others publish and which requests fail as inputs. */
  class ObjectStore {
    var objects: Objects
    var clock: nat
    const published: nat -> Objects
    const failing: nat -> bool

    constructor (objects: Objects, published: nat -> Objects, failing: nat -> bool)
      ensures this.objects == objects && this.published == published && this.failing == failing && clock == 0
    {
      this.objects, this.published, this.failing, clock := objects, published, failing, 0;
    }

    method Get(d: Digest) returns (r: Fetched)
      modifies this
      ensures clock == old(clock) + 1
      ensures objects == published(old(clock)) + old(objects)
      ensures r == if failing(old(clock)) then Failed else if d in objects then Bytes(objects[d]) else NotFound
    {
      objects := published(clock) + objects;
      r := if failing(clock) then Failed else if d in objects then Bytes(objects[d]) else NotFound;
      clock := clock + 1;
    }
  }

  datatype WalkError = Broken(error: RecordError) | StoreUnavailable

  datatype Walked = Records(records: seq<Record>) | Refusal(error: WalkError)

  /** Nobody publishes, and no request fails. */
  ghost predicate Steady(store: ObjectStore) {
    forall k :: store.published(k) == map[] && !store.failing(k)
  }

  datatype Reading = Got(record: Record) | Fault(error: WalkError)

  /** The record of the walk that stands under `d`, or why there is none. */
  function RecordAlone(lineage: nat, objects: Objects, d: Digest, generation: nat): Reading {
    if d !in objects then Fault(Broken(RecordError.Incomplete))
    else
      match FromBytes(lineage, d, objects[d])
      case Rejected(error) => Fault(Broken(error))
      case Accepted(r) => if r.sequence == generation then Got(r) else Fault(Broken(RecordError.Incomplete))
  }

  /** What a walk down from `d` over standing objects comes to: the chain, or why there is none. */
  function WalkAlone(lineage: nat, objects: Objects, d: Digest, generation: nat): Walked {
    match RecordAlone(lineage, objects, d, generation)
    case Fault(error) => Refusal(error)
    case Got(r) =>
      if generation == 0 && r.prior.None? then Records([r])
      else if generation > 0 && r.prior.Some? && r.prior.value.generation == generation - 1 then
        Below(WalkAlone(lineage, objects, r.prior.value.digest, generation - 1), [r])
      else Refusal(Broken(RecordError.Incomplete))
  }

  function Below(w: Walked, above: seq<Record>): Walked {
    if w.Records? then Records(w.records + above) else w
  }

  /** The head must repeat the prior of the record that it names. */
  function HistoryAlone(lineage: nat, objects: Objects, head: Head): Walked {
    var top := RecordAlone(lineage, objects, head.body.digest, head.rank);
    if top.Got? && top.record.prior != head.body.prior then Refusal(Broken(RecordError.Incomplete))
    else WalkAlone(lineage, objects, head.body.digest, head.rank)
  }

  lemma BelowTwice(w: Walked, r: Record, tail: seq<Record>)
    ensures Below(Below(w, [r]), tail) == Below(w, [r] + tail)
  {
    if w.Records? { assert w.records + [r] + tail == w.records + ([r] + tail); }
  }

  function Backwards<T>(s: seq<T>): (r: seq<T>) {
    seq(|s|, i requires 0 <= i < |s| => s[|s| - 1 - i])
  }

  /** A linked, published batch that starts at sequence 0 is the chain its last record names. */
  lemma WalkedChain(lineage: nat, objects: Objects, records: seq<Record>)
    requires records != [] && |records| <= U64_MAX + 1 && Linked(lineage, records, 0, None)
    requires Published(objects, records, |records|)
    ensures Chain(lineage, DigestOf(Terminal(records))) == Some(records)
    ensures Stored(objects, DigestOf(Terminal(records)))
  {
    ChainOfBatch(lineage, [], records);
    StoredBatch(objects, records, lineage, 0, None);
    assert [] + records == records;
  }

  /** One read of the walk. */
  method ReadRecord(store: ObjectStore, lineage: nat, d: Digest, expected: nat) returns (r: Reading)
    modifies store
    ensures Includes(old(store.objects), store.objects) && store.clock == old(store.clock) + 1
    ensures r.Got? ==>
      && r.record.lineage == lineage && r.record.sequence == expected && DigestOf(r.record) == d
      && d in store.objects && store.objects[d] == RecordBlob(r.record)
    ensures r.Fault? && WholeAt(lineage, old(store.objects), d, expected) ==> r.error == StoreUnavailable
    ensures r == Fault(StoreUnavailable) ==> store.failing(old(store.clock))
    ensures Steady(store) ==>
      store.objects == old(store.objects) && r == RecordAlone(lineage, store.objects, d, expected)
  {
    hide WellFormed, WholeAt;
    WholeStep(lineage, store.objects, d, expected);
    var fetched := store.Get(d);
    match fetched
    case NotFound => return Fault(Broken(RecordError.Incomplete));
    case Failed => return Fault(StoreUnavailable);
    case Bytes(blob) =>
      var decoded := FromBytes(lineage, d, blob);
      if decoded.Rejected? { return Fault(Broken(decoded.error)); }
      if DigestOf(decoded.value) != d || decoded.value.sequence != expected {
        return Fault(Broken(RecordError.Incomplete));
      }
      return Got(decoded.value);
  }

  lemma LinkedCons(lineage: nat, r: Record, tail: seq<Record>, first: nat)
    requires r.lineage == lineage && r.sequence == first
    requires Linked(lineage, tail, first + 1, Some(PositionOf(r)))
    ensures Linked(lineage, [r] + tail, first, r.prior)
  {
    forall i | 0 <= i < |tail| + 1 ensures LinkedAt(lineage, [r] + tail, first, r.prior, i) {
      if i > 0 {
        assert LinkedAt(lineage, tail, first + 1, Some(PositionOf(r)), i - 1);
      }
    }
  }

  lemma BackwardsNone<T>()
    ensures Backwards<T>([]) == []
  {
  }

  lemma BackwardsPush<T>(s: seq<T>, x: T)
    ensures Backwards(s + [x]) == [x] + Backwards(s)
  {
  }

  /**
   `load_history`: whatever it returns is the chain the head names, now stored whole; and if the
   chain was already whole when the walk began, only a failed request can stop it.
  */
  method LoadHistory(store: ObjectStore, lineage: nat, head: Head) returns (r: Walked)
    requires head.body.lineage == lineage && head.rank <= U64_MAX
    modifies store
    ensures Includes(old(store.objects), store.objects) && old(store.clock) <= store.clock
    ensures r.Records? ==>
      HeadOk(lineage, store.objects, head) && r.records == HeadChain(lineage, head)
    ensures r.Refusal? && HeadOk(lineage, old(store.objects), head) ==> r.error == StoreUnavailable
    ensures r == Refusal(StoreUnavailable) ==>
      exists k :: old(store.clock) <= k < store.clock && store.failing(k)
    ensures Steady(store) ==> r == HistoryAlone(lineage, old(store.objects), head)
  {
    hide Chain, Stored, Linked, WellFormed, Tracks, HistoryAlone, WalkAlone, WholeAt, RecordAlone, Steady, Backwards;
    var records: seq<Record> := [];
    var seen: set<Digest> := {};
    var expected := head.rank;
    var next := head.body.digest;
    ghost var whole := HeadOk(lineage, store.objects, head);
    ghost var start, steady := store.objects, Steady(store);
    ghost var tail: seq<Record> := [];
    WholeAtHead(lineage, start, head);
    TrackStart(lineage, start, head);
    EmptyLinked(lineage, expected + 1, Some(Position(expected, next)));
    BackwardsNone<Record>();
    while true
      invariant Includes(start, store.objects) && old(store.clock) <= store.clock
      invariant |records| + expected == head.rank
      invariant tail == Backwards(records) && |tail| == |records|
      invariant forall d :: d in seen ==> d.blob.RecordBlob? && d.blob.record.sequence > expected
      invariant Linked(lineage, tail, expected + 1, Some(Position(expected, next)))
      invariant Published(store.objects, tail, |tail|)
      invariant tail == [] ==> next == head.body.digest
      invariant tail != [] ==> DigestOf(Terminal(tail)) == head.body.digest && Terminal(tail).prior == head.body.prior
      invariant whole ==> WholeAt(lineage, start, next, expected)
      invariant steady ==> store.objects == start && Tracks(lineage, start, head, next, expected, tail, seen)
      decreases expected
    {
      if steady { TrackStep(lineage, start, head, next, expected, tail, seen); }
      if next in seen {
        WholeStep(lineage, start, next, expected);
        return Refusal(Broken(RecordError.Incomplete));
      }
      seen := seen + {next};
      WholeLater(lineage, start, store.objects, next, expected);
      var found := ReadRecord(store, lineage, next, expected);
      WholeStep(lineage, start, next, expected);
      if found.Fault? { return Refusal(found.error); }
      var record := found.record;
      if records == [] && head.body.prior != record.prior {
        WholeTop(lineage, start, head);
        return Refusal(Broken(RecordError.Incomplete));
      }
      LinkedCons(lineage, record, tail, expected);
      BackwardsPush(records, record);
      records := records + [record];
      tail := [record] + tail;
      if record.prior.None? && expected == 0 {
        break;
      }
      if record.prior.Some? && expected > 0 && record.prior.value.generation == expected - 1 {
        next := record.prior.value.digest;
        expected := expected - 1;
      } else {
        return Refusal(Broken(RecordError.Incomplete));
      }
    }
    WalkedChain(lineage, store.objects, tail);
    return Records(Backwards(records));
  }

  // ---- The walk over standing objects ------------------------------------------------------

  /** What has been read so far stands above what is still to be read. */
  ghost predicate Tracks(lineage: nat, objects: Objects, head: Head, next: Digest, expected: nat, tail: seq<Record>,
                         seen: set<Digest>)
  {
    && (tail == [] ==> seen == {} && next == head.body.digest && expected == head.rank)
    && (tail != [] ==>
          HistoryAlone(lineage, objects, head) == Below(WalkAlone(lineage, objects, next, expected), tail))
    && (forall d :: d in seen ==> Passed(lineage, objects, d, expected))
  }

  /** A record that was read, and that lies above `expected`. */
  ghost predicate Passed(lineage: nat, objects: Objects, d: Digest, expected: nat) {
    && d in objects && FromBytes(lineage, d, objects[d]).Accepted?
    && FromBytes(lineage, d, objects[d]).value.sequence > expected
  }

  lemma TrackStart(lineage: nat, objects: Objects, head: Head)
    ensures Tracks(lineage, objects, head, head.body.digest, head.rank, [], {})
  {
  }

  lemma TrackStep(lineage: nat, objects: Objects, head: Head, next: Digest, expected: nat, tail: seq<Record>,
                  seen: set<Digest>)
    requires Tracks(lineage, objects, head, next, expected, tail, seen)
    ensures next in seen ==> HistoryAlone(lineage, objects, head) == Refusal(Broken(RecordError.Incomplete))
    ensures match RecordAlone(lineage, objects, next, expected)
            case Fault(error) => HistoryAlone(lineage, objects, head) == Refusal(error)
            case Got(r) => TrackRecord(lineage, objects, head, next, expected, tail, seen, r)
  {
    hide WellFormed;
    var found := RecordAlone(lineage, objects, next, expected);
    if found.Got? && expected > 0 && found.record.prior.Some? {
      var r := found.record;
      BelowTwice(WalkAlone(lineage, objects, r.prior.value.digest, expected - 1), r, tail);
    }
  }

  ghost predicate TrackRecord(lineage: nat, objects: Objects, head: Head, next: Digest, expected: nat,
                              tail: seq<Record>, seen: set<Digest>, r: Record)
  {
    var h := HistoryAlone(lineage, objects, head);
    if tail == [] && r.prior != head.body.prior then h == Refusal(Broken(RecordError.Incomplete))
    else if expected == 0 && r.prior.None? then h == Records([r] + tail)
    else if expected > 0 && r.prior.Some? && r.prior.value.generation == expected - 1 then
      Tracks(lineage, objects, head, r.prior.value.digest, expected - 1, [r] + tail, seen + {next})
    else h == Refusal(Broken(RecordError.Incomplete))
  }

  /** Records are never deleted, so what was whole stays whole. */
  lemma WholeLater(lineage: nat, start: Objects, objects: Objects, d: Digest, generation: nat)
    requires Includes(start, objects)
    ensures WholeAt(lineage, start, d, generation) ==> WholeAt(lineage, objects, d, generation)
  {
    if WholeAt(lineage, start, d, generation) { StoredGrows(start, objects, d); }
  }

  /** The chain below `d` is whole and has exactly `generation + 1` records. */
  ghost predicate WholeAt(lineage: nat, objects: Objects, d: Digest, generation: nat) {
    var c := Chain(lineage, d);
    c.Some? && |c.value| == generation + 1 && Stored(objects, d)
  }

  lemma WholeAtHead(lineage: nat, objects: Objects, head: Head)
    ensures HeadOk(lineage, objects, head) ==> WholeAt(lineage, objects, head.body.digest, head.rank)
  {
  }

  lemma WholeTop(lineage: nat, objects: Objects, head: Head)
    ensures HeadOk(lineage, objects, head) ==>
      head.body.digest.blob.RecordBlob? && head.body.digest.blob.record.prior == head.body.prior
  {
  }

  lemma EmptyLinked(lineage: nat, first: nat, prior: Option<Position>)
    ensures Linked(lineage, [], first, prior)
  {
  }

  /** What a walk meets at one step of a whole chain. */
  lemma WholeStep(lineage: nat, objects: Objects, d: Digest, generation: nat)
    ensures WholeAt(lineage, objects, d, generation) ==>
      && d in objects && objects[d] == d.blob && FromBytes(lineage, d, d.blob).Accepted?
      && d.blob.record.sequence == generation
      && (if generation == 0 then d.blob.record.prior.None?
          else d.blob.record.prior.Some? && d.blob.record.prior.value.generation == generation - 1
               && WholeAt(lineage, objects, d.blob.record.prior.value.digest, generation - 1))
  {
  }

  /** `read_terminal_record`: the head and the one record it names. */
  method ReadTerminalRecord(store: ObjectStore, lineage: nat, head: Head) returns (r: Walked)
    modifies store
    ensures HeadOk(lineage, old(store.objects), head) && !store.failing(old(store.clock)) ==>
      r == Records([Terminal(HeadChain(lineage, head))])
    ensures r.Records? ==> |r.records| == 1 && DigestOf(r.records[0]) == head.body.digest
    ensures store.failing(old(store.clock)) <==> r == Refusal(StoreUnavailable)
    ensures !store.failing(old(store.clock)) && head.body.digest !in store.objects ==>
      r == Refusal(Broken(RecordError.Incomplete))
    ensures !store.failing(old(store.clock)) && head.body.digest in store.objects ==>
      match FromBytes(lineage, head.body.digest, store.objects[head.body.digest])
      case Rejected(error) => r == Refusal(Broken(error))
      case Accepted(record) => r == Records([record])
  {
    var fetched := store.Get(head.body.digest);
    WholeAtHead(lineage, old(store.objects), head);
    WholeStep(lineage, old(store.objects), head.body.digest, head.rank);
    match fetched
    case NotFound => return Refusal(Broken(RecordError.Incomplete));
    case Failed => return Refusal(StoreUnavailable);
    case Bytes(blob) =>
      var decoded := FromBytes(lineage, head.body.digest, blob);
      if decoded.Rejected? {
        return Refusal(Broken(decoded.error));
      }
      if DigestOf(decoded.value) != head.body.digest {
        return Refusal(Broken(RecordError.DigestMismatch));
      }
      return Records([decoded.value]);
  }
}
