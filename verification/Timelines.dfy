/**
 One stream's log as a timeline: the snapshots it goes through, each marked with whether the call
 under study made it.  Everything else that happens to the log (other writers, late deliveries of
 lost requests, trims, sweeps) enters as an input: the snapshots it may insert before any request.
*/
module Timelines {
  import opened Basics
  import opened Keys

  type Seq = n: nat | n <= U64_MAX

  /** Where an event lives in the keyspace. */
  const NAMESPACE: Key := "streams/v1"

  function LogPrefix(stream: Key): Key { stream + "/log/" }

  function LogKey(stream: Key, t: Seq): Key { LogPrefix(stream) + SeqComponent(t) }

  /** Digest text: SHA-256 of a payload, injective by construction, or anything a caller may type. */
  datatype DigestText = ShaHex(payload: seq<byte>) | Typed(text: string)

  /** The four fields that name a landed event; a receipt carries the same four. */
  datatype EventRef = EventRef(stream: string, at: Seq, id: string, digest: DigestText)

  datatype Envelope = Envelope(stream: string, at: Seq, id: string, schema: string, payload: seq<byte>)

  /** Object bytes: a spelling of an envelope (0 is the canonical one), junk, or a damaged kernel value. */
  datatype Bytes = Wire(envelope: Envelope, spelling: nat) | Junk(tag: nat) | Damaged(tag: nat)

  function RefOf(e: Envelope): EventRef { EventRef(e.stream, e.at, e.id, ShaHex(e.payload)) }

  /** Decode and verify: the key and the envelope agree, and the names are well formed. */
  function Decode(stream: string, t: Seq, bytes: Bytes): Option<Envelope> {
    if bytes.Wire? && bytes.envelope.stream == stream && bytes.envelope.at == t
       && ValidIdentifier(stream) && ValidIdentifier(bytes.envelope.id) && ValidIdentifier(bytes.envelope.schema)
    then Some(bytes.envelope) else None
  }

  /** What decodes is the very envelope that was written for this stream and position, with well-formed names. */
  lemma DecodeIff(stream: string, t: Seq, bytes: Bytes, e: Envelope)
    ensures Decode(stream, t, bytes) == Some(e) <==>
      && (exists spelling :: bytes == Wire(e, spelling)) && e.stream == stream && e.at == t
      && forall name :: name in {stream, e.id, e.schema} ==> ValidIdentifier(name)
  {
    hide ValidIdentifier;
    if Decode(stream, t, bytes) == Some(e) { assert bytes == Wire(e, bytes.spelling); }
  }

  datatype Stored = Stored(era: nat, bytes: Bytes)

  /** `eras` are the incarnation counters of the log keys; `floor` is the certified trim floor. */
  datatype Snapshot = Snapshot(slots: map<Seq, Stored>, eras: map<Seq, nat>, floor: Option<Seq>)

  datatype Moment = Moment(own: bool, snap: Snapshot)

  type Trace = seq<Moment>

  function Era(s: Snapshot, t: Seq): nat { if t in s.eras then s.eras[t] else 0 }

  /** The effective floor: 0 when the stream was never trimmed. */
  function Floor(s: Snapshot): Seq { if s.floor.Some? then s.floor.value else 0 }

  predicate Holds(s: Snapshot, t: Seq, b: Bytes) { t in s.slots && s.slots[t].bytes == b }

  // ---- What the call itself did ------------------------------------------------

  /** Only others moved between two points of the timeline. */
  ghost predicate Quiet(a: Trace, b: Trace) {
    && a <= b
    && forall k :: |a| <= k < |b| ==> !b[k].own
  }

  ghost predicate EraMoved(trace: Trace, k: nat, t: Seq) {
    exists i, j :: 0 <= i < k && 0 <= j < k && k <= |trace| && Era(trace[i].snap, t) != Era(trace[j].snap, t)
  }

  predicate PutStep(a: Snapshot, b: Snapshot, t: Seq, v: Bytes) {
    t !in a.slots && t in b.slots && b.slots[t].bytes == v && b == a.(slots := a.slots[t := b.slots[t]])
  }

  predicate EvictStep(a: Snapshot, b: Snapshot, t: Seq, v: Bytes) {
    Holds(a, t, v) && b == a.(slots := a.slots - {t})
  }

  /** The call's own effects: its value put where nothing stood, or withdrawn after the era moved. */
  ghost predicate OwnStep(trace: Trace, k: nat, t: Seq, v: Bytes) {
    0 < k < |trace| &&
    var a, b := trace[k - 1].snap, trace[k].snap;
    PutStep(a, b, t, v) || (EvictStep(a, b, t, v) && EraMoved(trace, k, t))
  }

  ghost predicate WritesOnly(a: Trace, b: Trace, t: Seq, v: Bytes) {
    && a <= b
    && forall k :: |a| <= k < |b| && b[k].own ==> OwnStep(b, k, t, v)
  }

  lemma OwnStepExtends(a: Trace, b: Trace, k: nat, t: Seq, v: Bytes)
    requires a <= b && OwnStep(a, k, t, v)
    ensures OwnStep(b, k, t, v)
  {
    if EraMoved(a, k, t) {
      var i, j :| 0 <= i < k && 0 <= j < k && Era(a[i].snap, t) != Era(a[j].snap, t);
      assert Era(b[i].snap, t) != Era(b[j].snap, t);
    }
  }

  lemma WritesOnlyThen(a: Trace, b: Trace, c: Trace, t: Seq, v: Bytes)
    requires WritesOnly(a, b, t, v) && WritesOnly(b, c, t, v)
    ensures WritesOnly(a, c, t, v)
  {
    forall k | |a| <= k < |c| && c[k].own ensures OwnStep(c, k, t, v) {
      if k < |b| {
        OwnStepExtends(b, c, k, t, v);
      }
    }
  }

  lemma QuietWrites(a: Trace, b: Trace, t: Seq, v: Bytes)
    requires Quiet(a, b)
    ensures WritesOnly(a, b, t, v)
  {
  }

  // ---- Legal timelines ------------------------------------------------------------

  /**
   What the other parties of a certifiably trimmed log may do: put where nothing stands, raise the
   floor, and delete a slot strictly between seq 0 and the floor.  Log keys are never destroyed.
  */
  ghost predicate LegalStep(a: Snapshot, b: Snapshot) {
    && a.eras == b.eras
    && (a.floor.Some? ==> b.floor.Some? && a.floor.value <= b.floor.value)
    && forall t :: t in a.slots ==>
         if t in b.slots then b.slots[t] == a.slots[t] else 0 < t < Floor(a)
  }

  ghost predicate LegalAt(trace: Trace, k: nat)
    requires 0 < k < |trace|
  {
    LegalStep(trace[k - 1].snap, trace[k].snap)
  }

  ghost predicate Legal(trace: Trace) {
    forall k :: 0 < k < |trace| ==> LegalAt(trace, k)
  }

  /** The others keep the rules from the moment the call began. */
  ghost predicate OthersLegal(a: Trace, b: Trace) {
    forall k :: |a| <= k < |b| && 0 < k && !b[k].own ==> LegalAt(b, k)
  }

  lemma {:induction false} LegalKeepsEras(trace: Trace, i: nat, t: Seq)
    requires Legal(trace) && i < |trace|
    ensures Era(trace[i].snap, t) == Era(trace[0].snap, t)
  {
    if i > 0 {
      LegalKeepsEras(trace, i - 1, t);
      assert LegalAt(trace, i);
    }
  }

  /** A call whose own writes are of the form above keeps a legal timeline legal, and never evicts. */
  lemma {:induction false} OwnStepsLegal(a: Trace, b: Trace, t: Seq, v: Bytes)
    requires Legal(a) && WritesOnly(a, b, t, v) && OthersLegal(a, b)
    ensures Legal(b)
    decreases |b|
  {
    if |a| < |b| {
      var last := |b| - 1;
      var init := b[..last];
      forall k | |a| <= k < |init| && init[k].own ensures OwnStep(init, k, t, v) {
        assert OwnStep(b, k, t, v);
        if EraMoved(b, k, t) {
          var i, j :| 0 <= i < k && 0 <= j < k && Era(b[i].snap, t) != Era(b[j].snap, t);
          assert Era(init[i].snap, t) != Era(init[j].snap, t);
        }
      }
      forall k | |a| <= k < |init| && 0 < k && !init[k].own ensures LegalAt(init, k) {
        assert LegalAt(b, k);
      }
      OwnStepsLegal(a, init, t, v);
      forall k | 0 < k < |b| ensures LegalAt(b, k) {
        if k < last {
          assert LegalAt(init, k);
        } else if b[k].own {
          assert OwnStep(b, k, t, v);
          if EraMoved(b, k, t) {
            var i, j :| 0 <= i < k && 0 <= j < k && Era(b[i].snap, t) != Era(b[j].snap, t);
            LegalKeepsEras(init, i, t);
            LegalKeepsEras(init, j, t);
            assert false;
          }
        }
      }
    } else {
      assert a == b;
    }
  }

  // ---- Same-slot agreement -----------------------------------------------------------

  lemma {:induction false} FloorsRise(trace: Trace, i: nat, j: nat)
    requires Legal(trace) && i <= j < |trace|
    ensures Floor(trace[i].snap) <= Floor(trace[j].snap)
    decreases j
  {
    if i < j {
      FloorsRise(trace, i, j - 1);
      assert LegalAt(trace, j);
    }
  }

  /** A slot keeps its bytes for as long as no floor above it has been certified. */
  lemma {:induction false} SlotStays(trace: Trace, i: nat, k: nat, t: Seq, v: Bytes)
    requires Legal(trace) && i <= k < |trace|
    requires Holds(trace[i].snap, t, v) && Floor(trace[k].snap) <= t
    ensures Holds(trace[k].snap, t, v)
    decreases k
  {
    if i < k {
      FloorsRise(trace, k - 1, k);
      SlotStays(trace, i, k - 1, t, v);
      assert LegalAt(trace, k);
    }
  }

  /** `v` stood at slot `t`, and a later look at the floor did not retire the slot. */
  ghost predicate ConfirmedRetained(trace: Trace, start: nat, t: Seq, v: Bytes) {
    exists i, j :: start <= i <= j < |trace| && Holds(trace[i].snap, t, v) && Floor(trace[j].snap) <= t
  }

  /** Two confirmed and retained values of one slot are the same bytes, whenever they were seen. */
  lemma SameSlot(trace: Trace, s1: nat, s2: nat, t: Seq, v: Bytes, w: Bytes)
    requires Legal(trace)
    requires ConfirmedRetained(trace, s1, t, v) && ConfirmedRetained(trace, s2, t, w)
    ensures v == w
  {
    var i, j :| s1 <= i <= j < |trace| && Holds(trace[i].snap, t, v) && Floor(trace[j].snap) <= t;
    var k, l :| s2 <= k <= l < |trace| && Holds(trace[k].snap, t, w) && Floor(trace[l].snap) <= t;
    if i <= k {
      FloorsRise(trace, k, l);
      SlotStays(trace, i, k, t, v);
    } else {
      FloorsRise(trace, i, j);
      SlotStays(trace, k, i, t, w);
    }
  }
}
