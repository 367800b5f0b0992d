/** Folds over a lineage's history: the full fold, the prefix fold and the projected fold. */
module Folds {
  import opened Basics
  import opened EraStore
  import opened Records
  import opened Lineage
  import opened LineageProofs
  import opened LineageTheorems
  import opened History

  /** The owner's vocabulary: which transitions are legal and what they mean. */
  datatype Folder<!S> = Folder(
    legal: Record -> bool,
    initial: S,
    apply: (S, Record) -> Option<S>,
    canonical: S -> Option<seq<byte>>,
    restore: (string, seq<byte>) -> Option<S>)

  function ApplyAll<S>(f: Folder<S>, records: seq<Record>): Option<S>
    decreases |records|
  {
    if records == [] then Some(f.initial)
    else
      var s := ApplyAll(f, records[..|records| - 1]);
      if s.Some? then f.apply(s.value, records[|records| - 1]) else None
  }

  /** The meaning of a history: None when a record is refused. */
  function Meaning<S>(f: Folder<S>, records: seq<Record>): Option<seq<byte>> {
    if exists i :: 0 <= i < |records| && !f.legal(records[i]) then None
    else
      var s := ApplyAll(f, records);
      if s.Some? then f.canonical(s.value) else None
  }

  datatype FoldError = BadWalk(error: WalkError) | BadRecord | BeyondHead

  datatype Disposition = Absent | Used | Discarded

  datatype Folded = Folded(canonical: seq<byte>, disposition: Disposition) | FoldRefused(error: FoldError)

  method FoldRecords<S>(f: Folder<S>, records: seq<Record>, disposition: Disposition) returns (r: Folded)
    ensures r == match Meaning(f, records)
                 case Some(bytes) => Folded(bytes, disposition)
                 case None => FoldRefused(BadRecord)
    ensures (exists i :: 0 <= i < |records| && !f.legal(records[i])) ==> r == FoldRefused(BadRecord)
    ensures r.Folded? ==> ApplyAll(f, records).Some? && f.canonical(ApplyAll(f, records).value) == Some(r.canonical)
  {
    for i := 0 to |records|
      invariant forall j :: 0 <= j < i ==> f.legal(records[j])
    {
      if !f.legal(records[i]) {
        return FoldRefused(BadRecord);
      }
    }
    var state := f.initial;
    for i := 0 to |records|
      invariant ApplyAll(f, records[..i]) == Some(state)
      invariant forall j :: 0 <= j < |records| ==> f.legal(records[j])
    {
      assert records[..i + 1][..i] == records[..i];
      var next := f.apply(state, records[i]);
      if next.None? {
        RefusedPrefix(f, records, i + 1);
        return FoldRefused(BadRecord);
      }
      state := next.value;
    }
    assert records[..|records|] == records;
    var bytes := f.canonical(state);
    return if bytes.Some? then Folded(bytes.value, disposition) else FoldRefused(BadRecord);
  }

  lemma {:induction false} RefusedPrefix<S>(f: Folder<S>, records: seq<Record>, n: nat)
    requires n <= |records| && ApplyAll(f, records[..n]).None?
    ensures ApplyAll(f, records).None?
    decreases |records|
  {
    if n == |records| {
      assert records[..n] == records;
    } else {
      var init := records[..|records| - 1];
      assert init[..n] == records[..n];
      RefusedPrefix(f, init, n);
    }
  }

  // ---- Checkpoints --------------------------------------------------------------

  /** A saved state, bound to the record it is said to include last. */
  datatype Checkpoint = Checkpoint(
    lineage: nat, schema: string, generation: nat, head: Digest, last: Digest, state: seq<byte>)

  /** What loading a checkpoint object gives: it, an integrity fault, or no answer. */
  datatype Loaded = Found(checkpoint: Checkpoint) | Faulty(code: RecordError) | NoAnswer

  datatype Verdict = Confirmed | Refuted(code: RecordError) | Unanswered

  /** Apply records to a given state. */
  function ApplyFrom<S>(f: Folder<S>, start: S, records: seq<Record>): Option<S>
    decreases |records|
  {
    if records == [] then Some(start)
    else
      var s := ApplyFrom(f, start, records[..|records| - 1]);
      if s.Some? then f.apply(s.value, records[|records| - 1]) else None
  }

  /** The checkpoint names the record at its generation, as head and as last included record. */
  predicate Basis(c: Checkpoint, lineage: nat, head: Head, records: seq<Record>) {
    && c.lineage == lineage && c.generation <= head.rank && c.generation < |records|
    && c.head == c.last == DigestOf(records[c.generation])
  }

  /** The meaning of resuming from the checkpoint over the records after it. */
  function Resumed<S>(f: Folder<S>, c: Checkpoint, records: seq<Record>): Option<seq<byte>>
    requires c.generation < |records|
  {
    var start := f.restore(c.schema, c.state);
    if start.None? then None
    else
      var s := ApplyFrom(f, start.value, records[c.generation + 1..]);
      if s.Some? then f.canonical(s.value) else None
  }

  /**
   The checkpoint stands exactly when it is bound to a record of this history and resuming from it gives
   the bytes of the full fold; anything else about it is a rejection, and only a store failure an error.
  */
  method CheckCheckpoint<S>(f: Folder<S>, found: Loaded, lineage: nat, head: Head, records: seq<Record>,
      full: seq<byte>)
    returns (v: Verdict)
    ensures v.Confirmed? <==>
      && found.Found? && Basis(found.checkpoint, lineage, head, records)
      && Resumed(f, found.checkpoint, records) == Some(full)
    ensures v.Unanswered? <==> found.NoAnswer?
    ensures found.Faulty? ==> v == Refuted(found.code)
    ensures found.Found? && v.Refuted? ==>
      v.code == if found.checkpoint.lineage == lineage
                   && (!Basis(found.checkpoint, lineage, head, records)
                       || Resumed(f, found.checkpoint, records).Some?)
                then RecordError.Incomplete else RecordError.Malformed
  {
    match found {
      case NoAnswer => return Unanswered;
      case Faulty(code) => return Refuted(code);
      case Found(c) =>
        if c.lineage != lineage { return Refuted(RecordError.Malformed); }
        if c.generation > head.rank || c.generation >= |records| { return Refuted(RecordError.Incomplete); }
        var source := DigestOf(records[c.generation]);
        if c.head != source || c.last != source { return Refuted(RecordError.Incomplete); }
        var restored := f.restore(c.schema, c.state);
        if restored.None? { return Refuted(RecordError.Malformed); }
        var state := restored.value;
        var rest := records[c.generation + 1..];
        for i := 0 to |rest|
          invariant ApplyFrom(f, restored.value, rest[..i]) == Some(state)
        {
          assert rest[..i + 1][..i] == rest[..i];
          var next := f.apply(state, rest[i]);
          if next.None? {
            RefusedFrom(f, restored.value, rest, i + 1);
            return Refuted(RecordError.Malformed);
          }
          state := next.value;
        }
        assert rest[..|rest|] == rest;
        var bytes := f.canonical(state);
        v := if bytes.None? then Refuted(RecordError.Malformed)
             else if bytes.value == full then Confirmed else Refuted(RecordError.Incomplete);
    }
  }

  lemma {:induction false} RefusedFrom<S>(f: Folder<S>, start: S, records: seq<Record>, n: nat)
    requires n <= |records| && ApplyFrom(f, start, records[..n]).None?
    ensures ApplyFrom(f, start, records).None?
    decreases |records|
  {
    if n == |records| {
      assert records[..n] == records;
    } else {
      var init := records[..|records| - 1];
      assert init[..n] == records[..n];
      RefusedFrom(f, start, init, n);
    }
  }

  /**
   The whole of `fold_records`: with any checkpoint at all the state is that of the full fold; a
   checkpoint is only ever judged, never used.
  */
  method FoldChecked<S>(f: Folder<S>, lineage: nat, head: Head, records: seq<Record>, disposition: Disposition,
                        offered: Option<Loaded>)
    returns (r: Folded, verdict: Option<Verdict>)
    ensures r == match Meaning(f, records)
                 case None => FoldRefused(BadRecord)
                 case Some(bytes) =>
                   if offered == Some(NoAnswer) then FoldRefused(BadWalk(StoreUnavailable))
                   else Folded(bytes, disposition)
    ensures r.Folded? ==> (verdict.Some? <==> offered.Some?)
    ensures r.Folded? && offered.Some? ==> (verdict == Some(Confirmed) <==>
      && offered.value.Found? && Basis(offered.value.checkpoint, lineage, head, records)
      && Resumed(f, offered.value.checkpoint, records) == Some(r.canonical))
  {
    verdict := None;
    r := FoldRecords(f, records, disposition);
    if r.Folded? && offered.Some? {
      var v := CheckCheckpoint(f, offered.value, lineage, head, records, r.canonical);
      verdict := Some(v);
      if v.Unanswered? { r := FoldRefused(BadWalk(StoreUnavailable)); }
    }
  }

  /** A checkpoint that restores the state of its own prefix is confirmed by every later head's fold. */
  lemma HonestCheckpointResumes<S>(f: Folder<S>, c: Checkpoint, records: seq<Record>)
    requires c.generation < |records| && Meaning(f, records).Some?
    requires f.restore(c.schema, c.state) == ApplyAll(f, records[..c.generation + 1])
    ensures Resumed(f, c, records) == Meaning(f, records)
  {
    var cut := c.generation + 1;
    assert records == records[..cut] + records[cut..];
    FoldSplits(f, records[..cut], records[cut..]);
  }

  lemma {:induction false} FoldSplits<S>(f: Folder<S>, a: seq<Record>, b: seq<Record>)
    ensures ApplyAll(f, a + b) ==
      if ApplyAll(f, a).Some? then ApplyFrom(f, ApplyAll(f, a).value, b) else None
    decreases |b|
  {
    if b == [] {
      assert a + b == a;
    } else {
      var init := b[..|b| - 1];
      FoldSplits(f, a, init);
      assert (a + b)[..|a + b| - 1] == a + init && (a + b)[|a + b| - 1] == b[|b| - 1];
    }
  }

  // ---- Projections --------------------------------------------------------------

  datatype Projected = Projected(digest: Digest, blob: Blob)

  /** A disposable copy of one history; any bytes at all may be offered as one. */
  datatype Projection = Projection(lineage: nat, generation: nat, digest: Digest, records: seq<Projected>)

  /** The copy is exactly the chain its source names, in order. */
  ghost predicate Exact(p: Projection, lineage: nat) {
    var c := Chain(lineage, p.digest);
    && p.lineage == lineage && p.generation < U64_MAX
    && c.Some? && |c.value| == p.generation + 1 && |p.records| == |c.value|
    && forall i :: 0 <= i < |c.value| ==> p.records[i] == Projected(DigestOf(c.value[i]), RecordBlob(c.value[i]))
  }

  /** The records of a whole chain all carry different digests. */
  lemma ExactDigestsDiffer(p: Projection, lineage: nat, i: nat, j: nat)
    requires Exact(p, lineage) && i < |p.records| && j < |p.records|
    ensures p.records[i].digest == p.records[j].digest <==> i == j
  {
    var c := Chain(lineage, p.digest).value;
    ChainIsLinked(lineage, p.digest);
    assert LinkedAt(lineage, c, 0, None, i) && LinkedAt(lineage, c, 0, None, j);
  }

  lemma ExactIsWhole(p: Projection, lineage: nat, objects: Objects)
    requires Exact(p, lineage)
    requires forall i :: 0 <= i < |p.records| ==>
      p.records[i].digest in objects && objects[p.records[i].digest] == p.records[i].blob
    ensures WholeAt(lineage, objects, p.digest, p.generation)
  {
    var c := Chain(lineage, p.digest).value;
    ChainIsLinked(lineage, p.digest);
    assert Published(objects, c, |c|);
    StoredBatch(objects, c, lineage, 0, None);
  }

  /** Index the copy by digest; a digest that occurs twice is refused. */
  method IndexCopies(records: seq<Projected>) returns (indexed: Option<Objects>)
    ensures indexed.Some? <==> forall i, j :: 0 <= i < j < |records| ==> records[i].digest != records[j].digest
    ensures indexed.Some? ==>
      && |indexed.value| == |records|
      && (forall i :: 0 <= i < |records| ==>
            records[i].digest in indexed.value && indexed.value[records[i].digest] == records[i].blob)
  {
    var m: Objects := map[];
    for k := 0 to |records|
      invariant forall i, j :: 0 <= i < j < k ==> records[i].digest != records[j].digest
      invariant |m| == k
      invariant forall i :: 0 <= i < k ==> records[i].digest in m && m[records[i].digest] == records[i].blob
      invariant forall d :: d in m ==> exists i :: 0 <= i < k && records[i].digest == d
    {
      if records[k].digest in m {
        return None;
      }
      m := m[records[k].digest := records[k].blob];
    }
    return Some(m);
  }

  /**
   `records_for_source`: a projection yields records if and only if it is an exact copy of the chain
   its source names, and then yields exactly that chain.
  */
  method RecordsForSource(p: Projection, lineage: nat) returns (r: Walked)
    ensures r.Records? <==> Exact(p, lineage)
    ensures r.Records? ==> Chain(lineage, p.digest) == Some(r.records)
  {
    hide Chain, Stored, Linked, WellFormed, WholeAt;
    ghost var exact := Exact(p, lineage);
    if p.lineage != lineage || p.generation >= U64_MAX {
      return Refusal(Broken(RecordError.Incomplete));
    }
    if exact {
      forall i, j | 0 <= i < j < |p.records| ensures p.records[i].digest != p.records[j].digest {
        ExactDigestsDiffer(p, lineage, i, j);
      }
    }
    var index := IndexCopies(p.records);
    if index.None? || |index.value| != p.generation + 1 {
      return Refusal(Broken(RecordError.Incomplete));
    }
    var indexed := index.value;
    if exact {
      ExactIsWhole(p, lineage, indexed);
    }
    var walk := WalkCopies(indexed, lineage, p.digest, p.generation);
    if walk.Refusal? {
      return walk;
    }
    var records := walk.records;
    if |records| != |p.records| {
      return Refusal(Broken(RecordError.Incomplete));
    }
    for i := 0 to |records|
      invariant forall j :: 0 <= j < i ==> p.records[j].digest == DigestOf(records[j])
    {
      CopyAt(lineage, p.digest, records, i);
      if records[i].sequence != i || DigestOf(records[i]) != p.records[i].digest {
        return Refusal(Broken(RecordError.Incomplete));
      }
    }
    return Records(records);
  }

  lemma CopyAt(lineage: nat, d: Digest, records: seq<Record>, i: nat)
    requires Chain(lineage, d) == Some(records) && i < |records|
    ensures records[i].sequence == i
  {
    ChainIsLinked(lineage, d);
    assert LinkedAt(lineage, records, 0, None, i);
  }

  /** The walk over the indexed copy, from the source down to sequence 0. */
  method WalkCopies(indexed: Objects, lineage: nat, source: Digest, generation: nat) returns (r: Walked)
    requires generation < U64_MAX
    ensures r.Records? <==> WholeAt(lineage, indexed, source, generation)
    ensures r.Records? ==> Chain(lineage, source) == Some(r.records) && |r.records| == generation + 1
    ensures r.Records? ==> Published(indexed, r.records, |r.records|)
  {
    hide Chain, Stored, Linked, WellFormed, WholeAt;
    var records: seq<Record> := [];
    var seen: set<Digest> := {};
    var expected := generation;
    var next := source;
    ghost var tail: seq<Record> := [];
    EmptyLinked(lineage, expected + 1, Some(Position(expected, next)));
    while true
      invariant |records| + expected == generation
      invariant tail == Backwards(records)
      invariant forall d :: d in seen ==> d.blob.RecordBlob? && d.blob.record.sequence > expected
      invariant Linked(lineage, tail, expected + 1, Some(Position(expected, next)))
      invariant Published(indexed, tail, |tail|)
      invariant if tail == [] then next == source else DigestOf(Terminal(tail)) == source
      invariant WholeAt(lineage, indexed, source, generation) ==> WholeAt(lineage, indexed, next, expected)
      decreases expected
    {
      WholeStep(lineage, indexed, next, expected);
      if next in seen || next !in indexed {
        return Refusal(Broken(RecordError.Incomplete));
      }
      seen := seen + {next};
      var decoded := FromBytes(lineage, next, indexed[next]);
      if decoded.Rejected? {
        return Refusal(Broken(decoded.error));
      }
      var record := decoded.value;
      if DigestOf(record) != next || record.sequence != expected {
        return Refusal(Broken(RecordError.Incomplete));
      }
      LinkedCons(lineage, record, tail, expected);
      records := records + [record];
      tail := [record] + tail;
      assert tail == Backwards(records);
      if record.prior.None? && expected == 0 {
        break;
      }
      if record.prior.Some? && expected > 0 && record.prior.value.generation == expected - 1 {
        next := record.prior.value.digest;
        expected := expected - 1;
      } else {
        return Refusal(Broken(RecordError.Incomplete));
      }
    }
    WalkedChain(lineage, indexed, tail);
    WholeIs(lineage, indexed, source, generation);
    return Records(Backwards(records));
  }

  lemma WholeIs(lineage: nat, objects: Objects, d: Digest, generation: nat)
    requires Chain(lineage, d).Some? && |Chain(lineage, d).value| == generation + 1 && Stored(objects, d)
    ensures WholeAt(lineage, objects, d, generation)
  {
  }

  // ---- The three folds -------------------------------------------------------------

  predicate Matches(p: Projection, head: Head) {
    p.lineage == head.body.lineage && p.generation == head.rank && p.digest == head.body.digest
  }

  /**
   `fold_with_projection`: whatever projection is offered, a result is the meaning of the chain the
   head names; and over a complete history the outcome is that of the plain fold, short of a failed
   request.  The projection is used only if it is an exact copy of that chain.
  */
  method FoldWithProjection<S>(store: ObjectStore, head: Head, offered: Option<Projection>, f: Folder<S>)
    returns (r: Folded)
    requires head.rank <= U64_MAX
    modifies store
    ensures r.Folded? ==> Meaning(f, HeadChain(head.body.lineage, head)) == Some(r.canonical)
    ensures HeadOk(head.body.lineage, old(store.objects), head) && r.FoldRefused? ==>
      || r.error == BadWalk(StoreUnavailable)
      || (r.error == BadRecord && Meaning(f, HeadChain(head.body.lineage, head)).None?)
    ensures r == FoldRefused(BadWalk(StoreUnavailable)) ==>
      exists k :: old(store.clock) <= k < store.clock && store.failing(k)
    ensures r == FoldRefused(BadRecord) ==> Meaning(f, HeadChain(head.body.lineage, head)).None?
    ensures r.FoldRefused? ==> !r.error.BeyondHead?
    ensures Steady(store) && r.FoldRefused? && r.error.BadWalk? ==>
      HistoryAlone(head.body.lineage, old(store.objects), head) == Refusal(r.error.error)
    ensures r.Folded? ==> (r.disposition == Absent <==> offered.None?)
    ensures r.Folded? ==> (r.disposition == Used <==>
      && offered.Some? && Matches(offered.value, head) && Exact(offered.value, head.body.lineage)
      && Terminal(HeadChain(head.body.lineage, head)).prior == head.body.prior)
  {
    hide Chain, Stored, Meaning;
    var disposition := if offered.Some? then Discarded else Absent;
    if offered.Some? && Matches(offered.value, head) {
      var projected := RecordsForSource(offered.value, head.body.lineage);
      if projected.Records? && head.body.prior == Terminal(projected.records).prior {
        r := FoldRecords(f, projected.records, Used);
        return;
      }
    }
    var walked := LoadHistory(store, head.body.lineage, head);
    if walked.Refusal? {
      return FoldRefused(BadWalk(walked.error));
    }
    r := FoldRecords(f, walked.records, disposition);
  }

  /** `fold_at_generation`: the meaning of the exact prefix, or a refusal past the head. */
  method FoldAtGeneration<S>(store: ObjectStore, head: Head, generation: nat, f: Folder<S>) returns (r: Folded)
    requires head.rank <= U64_MAX && generation <= U64_MAX
    modifies store
    ensures r.Folded? ==>
      && generation <= head.rank < |HeadChain(head.body.lineage, head)|
      && Meaning(f, HeadChain(head.body.lineage, head)[..generation + 1]) == Some(r.canonical)
    ensures generation > head.rank ==> r == FoldRefused(BeyondHead)
    ensures generation <= head.rank && HeadOk(head.body.lineage, old(store.objects), head) && r.FoldRefused? ==>
      || r.error == BadWalk(StoreUnavailable)
      || (r.error == BadRecord && generation < |HeadChain(head.body.lineage, head)|
          && Meaning(f, HeadChain(head.body.lineage, head)[..generation + 1]).None?)
    ensures r == FoldRefused(BadWalk(StoreUnavailable)) ==>
      exists k :: old(store.clock) <= k < store.clock && store.failing(k)
    ensures r == FoldRefused(BeyondHead) <==> generation > head.rank
    ensures Steady(store) && r.FoldRefused? && r.error.BadWalk? ==>
      HistoryAlone(head.body.lineage, old(store.objects), head) == Refusal(r.error.error)
  {
    hide Chain, Stored, Meaning;
    if generation > head.rank {
      return FoldRefused(BeyondHead);
    }
    var walked := LoadHistory(store, head.body.lineage, head);
    if walked.Refusal? {
      return FoldRefused(BadWalk(walked.error));
    }
    r := FoldRecords(f, walked.records[..generation + 1], Absent);
  }

  /**
   A prefix fold is unchanged by every later append of the same lifetime: the prefix it reads off the
   head standing at one event is the prefix it reads off the head standing at any later event of the
   same open incarnation.
  */
  lemma PrefixFoldIsStable<S>(tr: Trace, m: nat, n: nat, generation: nat, f: Folder<S>)
    requires m <= n <= |tr.events| && Proper(Reach(tr, n))
    requires var a, b := Reach(tr, m).store, Reach(tr, n).store;
      a.cell.Some? && a.cell.value.era == Era(a) == Era(b) && generation <= a.cell.value.rank
    ensures Reach(tr, n).store.cell.Some? && generation <= Reach(tr, n).store.cell.value.rank
    ensures var g, h := Reach(tr, m).store.cell.value, Reach(tr, n).store.cell.value;
      && generation < |HeadChain(tr.lineage, g)| && generation < |HeadChain(tr.lineage, h)|
      && Meaning(f, HeadChain(tr.lineage, g)[..generation + 1])
           == Meaning(f, HeadChain(tr.lineage, h)[..generation + 1])
  {
    OpenHeadOnlyGrows(tr, m, n);
    EveryHeadComplete(tr, m, n);
    EveryHeadComplete(tr, n, n);
    var g, h := Reach(tr, m).store.cell.value, Reach(tr, n).store.cell.value;
    assert HeadChain(tr.lineage, g)[..generation + 1] == HeadChain(tr.lineage, h)[..generation + 1];
  }
}
