/**
 Predecessor-expected append and caller-named stream creation: what each call may claim about its own
 effect while other writers, trims and sweeps interfere at every request.
*/
module AppendExpected {
  import opened Basics
  import opened Keys
  import opened Timelines
  import opened LogStore

  datatype StreamsError =
    | InvalidArgument
    | SeqExhausted
    | EnvelopeTooLarge
    | StreamNotFound
    | Corrupt(at: Seq)
    | IdempotencyConflict(at: Seq)
    | EventMissing(at: Seq)
    | BackendUnqualified
    | Unavailable

  datatype Subject = Predecessor | Target

  datatype Failure =
    | Storage(error: StreamsError)
    | PredecessorMismatch(observed: EventRef)
    | PositionConflict(occupant: EventRef)
    | HoleWitnessed(later: EventRef)
    | Expired(firstRetained: Seq, subject: Subject)

  datatype Effect = NotAttempted | PossiblyCommitted | Committed(receipt: EventRef)

  datatype Appended = Receipt(receipt: EventRef) | Failed(kind: Failure, effect: Effect)

  /** What is being appended: the predecessor it names, and the event itself. */
  datatype Demand = Demand(predecessor: EventRef, schema: string, id: string, payload: seq<byte>)

  const MAX_ENCODED_ENVELOPE_BYTES: nat := 16 * 1024 * 1024

  // ---- Admission -------------------------------------------------------------

  function DigitCount(n: nat): (d: nat)
    ensures d > 0
  {
    if n < 10 then 1 else 1 + DigitCount(n / 10)
  }

  /** Length of the canonical JSON of an envelope whose names need no escaping; payload in base64. */
  function EncodedLen(e: Envelope): nat {
    126 + |e.stream| + DigitCount(e.at) + |e.id| + |e.schema| + DigitCount(|e.payload|) + 64 + (|e.payload| + 2) / 3 * 4
  }

  predicate CanonicalDigest(d: DigestText) {
    match d
    case ShaHex(_) => true
    case Typed(text) => |text| == 64 && forall c :: c in text ==> '0' <= c <= '9' || 'a' <= c <= 'f'
  }

  /** The successor of the predecessor, where it has one. */
  function TargetOf(d: Demand): Seq {
    if d.predecessor.at < U64_MAX then d.predecessor.at + 1 else U64_MAX
  }

  function Desired(d: Demand): Envelope {
    Envelope(d.predecessor.stream, TargetOf(d), d.id, d.schema, d.payload)
  }

  function Admission(d: Demand): Option<StreamsError> {
    if !ValidIdentifier(d.predecessor.stream) || !ValidIdentifier(d.schema) || !ValidIdentifier(d.id)
       || !ValidIdentifier(d.predecessor.id) || !CanonicalDigest(d.predecessor.digest) then Some(InvalidArgument)
    else if d.predecessor.at == U64_MAX then Some(SeqExhausted)
    else if EncodedLen(Desired(d)) > MAX_ENCODED_ENVELOPE_BYTES then Some(EnvelopeTooLarge)
    else None
  }

  /** An admitted demand will decode where it is written, within the size bound, at a representable position. */
  lemma AdmittedDecodes(d: Demand)
    requires Admission(d).None?
    ensures Decode(d.predecessor.stream, TargetOf(d), Wire(Desired(d), 0)) == Some(Desired(d))
    ensures TargetOf(d) == d.predecessor.at + 1 && EncodedLen(Desired(d)) <= MAX_ENCODED_ENVELOPE_BYTES
    ensures ValidIdentifier(d.predecessor.id) && CanonicalDigest(d.predecessor.digest)
  {
  }

  /** What refuses a demand: never the predecessor, if some log could show it. */
  lemma RefusedDemand(d: Demand, s: Snapshot)
    requires Admission(d).Some? && Shows(s, d.predecessor.stream, d.predecessor.at, d.predecessor)
    ensures match Admission(d).value
            case InvalidArgument => !ValidIdentifier(d.schema) || !ValidIdentifier(d.id)
            case SeqExhausted => d.predecessor.at == U64_MAX
            case EnvelopeTooLarge => EncodedLen(Desired(d)) > MAX_ENCODED_ENVELOPE_BYTES
            case _ => false
  {
    hide ValidIdentifier;
  }

  // ---- What each answer must mean ------------------------------------------------

  /** The verified event at a position, if one is readable there. */
  function EventAt(s: Snapshot, stream: string, t: Seq): Option<Envelope> {
    if t in s.slots then Decode(stream, t, s.slots[t].bytes) else None
  }

  predicate Shows(s: Snapshot, stream: string, t: Seq, ref: EventRef) {
    EventAt(s, stream, t).Some? && RefOf(EventAt(s, stream, t).value) == ref
  }

  predicate Undecodable(s: Snapshot, stream: string, t: Seq) { t in s.slots && EventAt(s, stream, t).None? }

  /** An event stands in the target slot whose bytes are not the desired ones. */
  predicate Occupied(s: Snapshot, d: Demand, occupant: EventRef) {
    Shows(s, d.predecessor.stream, TargetOf(d), occupant) && !Holds(s, TargetOf(d), Wire(Desired(d), 0))
  }

  ghost predicate Saw(trace: Trace, start: nat, stream: string, t: Seq, ref: EventRef) {
    exists i :: start <= i < |trace| && Shows(trace[i].snap, stream, t, ref)
  }

  ghost predicate SawAbsent(trace: Trace, start: nat, t: Seq) {
    exists i :: start <= i < |trace| && t !in trace[i].snap.slots
  }

  ghost predicate SawFloor(trace: Trace, start: nat, floor: Seq) {
    exists i :: start <= i < |trace| && Floor(trace[i].snap) == floor
  }

  ghost predicate SawCorrupt(trace: Trace, start: nat, stream: string, t: Seq) {
    exists i :: start <= i < |trace| && Undecodable(trace[i].snap, stream, t)
  }

  ghost predicate SawOccupant(trace: Trace, start: nat, d: Demand, occupant: EventRef) {
    exists i :: start <= i < |trace| && Occupied(trace[i].snap, d, occupant)
  }

  ghost predicate SawOwnId(trace: Trace, start: nat, d: Demand) {
    exists o :: SawOccupant(trace, start, d, o) && o.id == d.id
  }

  ghost predicate Stood(trace: Trace, start: nat, t: Seq, v: Bytes) {
    exists i :: start <= i < |trace| && Holds(trace[i].snap, t, v)
  }

  /** Every typed failure was true of the log at some instant of the call. */
  ghost predicate FailureTrue(trace: Trace, start: nat, d: Demand, f: Failure) {
    var stream := d.predecessor.stream;
    match f
    case PredecessorMismatch(observed) =>
      observed != d.predecessor && Saw(trace, start, stream, d.predecessor.at, observed)
    case PositionConflict(occupant) => SawOccupant(trace, start, d, occupant) && occupant.id != d.id
    case HoleWitnessed(later) =>
      TargetOf(d) < later.at && SawAbsent(trace, start, TargetOf(d)) && Saw(trace, start, stream, later.at, later)
    case Expired(first, subject) =>
      && SawFloor(trace, start, first)
      && (subject.Target? ==> TargetOf(d) < first)
      && (subject.Predecessor? ==> 0 < d.predecessor.at && first == TargetOf(d))
    case Storage(error) =>
      match error
      case StreamNotFound => SawAbsent(trace, start, 0)
      case Corrupt(t) => SawCorrupt(trace, start, stream, t)
      case IdempotencyConflict(t) => t == TargetOf(d) && SawOwnId(trace, start, d)
      case EventMissing(t) => t == d.predecessor.at && SawAbsent(trace, start, t)
      case SeqExhausted => d.predecessor.at == U64_MAX
      case EnvelopeTooLarge => EncodedLen(Desired(d)) > MAX_ENCODED_ENVELOPE_BYTES
      case _ => true
  }

  /** The predecessor was verified, and a later look at the floor retired neither it nor the target. */
  ghost predicate Cleared(trace: Trace, start: nat, d: Demand) {
    && SawAbsent(trace, start, TargetOf(d))
    && exists i, j :: start <= i <= j < |trace|
         && Shows(trace[i].snap, d.predecessor.stream, d.predecessor.at, d.predecessor)
         && FloorAdmits(trace[j].snap, d)
  }

  predicate FloorAdmits(s: Snapshot, d: Demand) {
    Floor(s) <= TargetOf(d) && (d.predecessor.at > 0 ==> Floor(s) <= d.predecessor.at)
  }

  // ---- The call --------------------------------------------------------------------

  function DesiredBytes(d: Demand): Bytes { Wire(Desired(d), 0) }

  /** What an answer proves about the log. */
  ghost predicate Verdict(trace: Trace, start: nat, d: Demand, r: Appended) {
    match r
    case Receipt(receipt) =>
      && d.predecessor.at < U64_MAX && receipt == RefOf(Desired(d))
      && ConfirmedRetained(trace, start, TargetOf(d), DesiredBytes(d))
    case Failed(kind, effect) =>
      && FailureTrue(trace, start, d, kind)
      && (effect.Committed? ==>
            effect.receipt == RefOf(Desired(d)) && Stood(trace, start, TargetOf(d), DesiredBytes(d)))
  }

  /** The demanded event, field by field, at the successor of the predecessor, and a receipt that names it. */
  ghost predicate Delivered(s: Snapshot, d: Demand, receipt: EventRef) {
    && d.predecessor.at < U64_MAX && receipt.at == d.predecessor.at + 1 && receipt.stream == d.predecessor.stream
    && receipt.id == d.id && receipt.digest == ShaHex(d.payload)
    && EventAt(s, receipt.stream, receipt.at).Some?
    && var e := EventAt(s, receipt.stream, receipt.at).value;
       e.id == d.id && e.schema == d.schema && e.payload == d.payload
  }

  ghost predicate DeliveredIn(trace: Trace, start: nat, d: Demand, receipt: EventRef) {
    exists i :: start <= i < |trace| && Delivered(trace[i].snap, d, receipt)
  }

  lemma ReceiptDelivered(trace: Trace, start: nat, d: Demand, r: Appended)
    requires Admission(d).None? && Verdict(trace, start, d, r)
    ensures r.Receipt? ==> DeliveredIn(trace, start, d, r.receipt)
    ensures r.Failed? && r.effect.Committed? ==> DeliveredIn(trace, start, d, r.effect.receipt)
  {
    if r.Receipt? || r.effect.Committed? {
      var t, v := TargetOf(d), DesiredBytes(d);
      var i :| start <= i < |trace| && Holds(trace[i].snap, t, v);
      AdmittedDecodes(d);
      hide ValidIdentifier, EncodedLen, CanonicalDigest, FailureTrue, ConfirmedRetained;
      assert Delivered(trace[i].snap, d, RefOf(Desired(d)));
    }
  }

  /** How a failed GET at `t` is reported: stored damage is never the caller's fault, nor absence. */
  function ReadError(g: Got, t: Seq): StreamsError {
    match g
    case Broken => Corrupt(t)
    case Inadmissible => InvalidArgument
    case _ => Unavailable
  }

  /** Nothing seen so far contradicts the standing floor. */
  predicate FloorSince(seen: Option<Seq>, s: Snapshot) {
    seen.Some? ==> s.floor.Some? && seen.value <= s.floor.value
  }

  // ---- What an answer that says nothing of the log must mean ---------------------------------

  /** The greatest floor seen was the certified floor at an instant of the call. */
  ghost predicate FloorWas(trace: Trace, start: nat, seen: Option<Seq>) {
    seen.Some? ==> exists i :: start <= i < |trace| && trace[i].snap.floor == seen
  }

  /** The certified floor fell, or its certificate vanished. */
  ghost predicate FloorFell(trace: Trace, start: nat) {
    exists i, j :: start <= i <= j < |trace| && trace[i].snap.floor.Some?
      && (trace[j].snap.floor.None? || trace[j].snap.floor.value < trace[i].snap.floor.value)
  }

  /** LIST showed a position after the target at which nothing stood. */
  ghost predicate ListedInVain(log: Log, from: nat, start: nat, target: Seq)
    reads log
  {
    exists t: Seq :: t > target && log.WasListed(from, log.clock, t) && SawAbsent(log.trace, start, t)
  }

  /** Why a call whose first request has number `from` may answer with an error that names no position. */
  ghost predicate Blamed(log: Log, from: nat, start: nat, target: Seq, e: StreamsError)
    reads log
  {
    match e
    case Unavailable => log.WentDown(from, log.clock)
    case InvalidArgument => log.WasRefused(from, log.clock)
    case BackendUnqualified => FloorFell(log.trace, start) || ListedInVain(log, from, start, target)
    case _ => true
  }

  ghost predicate BlamedFor(log: Log, from: nat, start: nat, d: Demand, f: Failure)
    reads log
  {
    f.Storage? ==> Blamed(log, from, start, TargetOf(d), f.error)
  }

  lemma WasGrows(a: Trace, b: Trace, start: nat, seen: Option<Seq>)
    requires a <= b && FloorWas(a, start, seen)
    ensures FloorWas(b, start, seen)
  {
    assert forall i :: 0 <= i < |a| ==> a[i] == b[i];
  }

  lemma WasNow(trace: Trace, start: nat, seen: Option<Seq>)
    requires start < |trace| && (seen.Some? ==> trace[|trace| - 1].snap.floor == seen)
    ensures FloorWas(trace, start, seen)
  {
  }

  lemma FellSince(trace: Trace, start: nat, seen: Option<Seq>)
    requires start < |trace| && FloorWas(trace, start, seen) && !FloorSince(seen, trace[|trace| - 1].snap)
    ensures FloorFell(trace, start)
  {
  }

  lemma DownSince(log: Log, from: nat, mid: nat, to: nat)
    requires from <= mid <= to
    ensures log.WentDown(mid, to) ==> log.WentDown(from, to)
    ensures log.WasRefused(mid, to) ==> log.WasRefused(from, to)
    ensures forall t :: log.WasListed(mid, to, t) ==> log.WasListed(from, to, t)
  {
  }

  // ---- What an undisturbed call answers --------------------------------------------------------

  function Refusal(f: Failure): Appended { Failed(f, NotAttempted) }

  /** What is wrong with the predecessor, all four fields considered. */
  function PredecessorFault(s: Snapshot, d: Demand): Option<Failure> {
    var p := d.predecessor;
    if p.at !in s.slots then Some(Storage(EventMissing(p.at)))
    else match EventAt(s, p.stream, p.at)
      case None => Some(Storage(Corrupt(p.at)))
      case Some(e) => if RefOf(e) == p then None else Some(PredecessorMismatch(RefOf(e)))
  }

  /** What a LIST that shows `listed` makes of an absent target. */
  function HoleFault(s: Snapshot, d: Demand, listed: Option<Seq>): Option<Failure> {
    if listed.None? || listed.value <= TargetOf(d) then None
    else if listed.value !in s.slots then Some(Storage(BackendUnqualified))
    else match EventAt(s, d.predecessor.stream, listed.value)
      case None => Some(Storage(Corrupt(listed.value)))
      case Some(e) => Some(HoleWitnessed(RefOf(e)))
  }

  /** What stands against appending at an absent target. */
  function AbsentFault(s: Snapshot, d: Demand, listed: Option<Seq>): Option<Failure> {
    if Retention(d, Effective(Floor(s))).Some? then Retention(d, Effective(Floor(s)))
    else if PredecessorFault(s, d).Some? then PredecessorFault(s, d)
    else HoleFault(s, d, listed)
  }

  function CommittedAnswer(s: Snapshot, d: Demand): Appended {
    if TargetOf(d) < Floor(s) then Failed(Expired(Floor(s), Target), Committed(RefOf(Desired(d))))
    else Receipt(RefOf(Desired(d)))
  }

  function OccupantFault(s: Snapshot, d: Demand, bytes: Bytes): Failure {
    if TargetOf(d) < Floor(s) then Expired(Floor(s), Target) else ClassifyOccupant(d, bytes)
  }

  /** The answer that the log's state alone determines. */
  function AnswerAlone(s: Snapshot, d: Demand, listed: Option<Seq>): Appended {
    var stream, t := d.predecessor.stream, TargetOf(d);
    if 0 !in s.slots then Refusal(Storage(StreamNotFound))
    else if EventAt(s, stream, 0).None? then Refusal(Storage(Corrupt(0)))
    else if Holds(s, t, DesiredBytes(d)) then CommittedAnswer(s, d)
    else if t in s.slots then Refusal(OccupantFault(s, d, s.slots[t].bytes))
    else if AbsentFault(s, d, listed).Some? then Refusal(AbsentFault(s, d, listed).value)
    else Receipt(RefOf(Desired(d)))
  }

  datatype FloorSeen = Effective(floor: Seq) | NoFloor(error: StreamsError)

  // ---- The requests, in order ------------------------------------------------------------------

  /** One look at the certified floor; a fall below the greatest one seen disqualifies the store. */
  method ObserveFloor(log: Log, ghost from: nat, ghost start: nat, target: Seq, seen: Option<Seq>)
    returns (f: FloorSeen, max: Option<Seq>)
    requires log.Valid() && start < |log.trace| && from <= log.clock && FloorWas(log.trace, start, seen)
    modifies log
    ensures log.Valid() && Quiet(old(log.trace), log.trace) && log.sent == old(log.sent) && old(log.clock) <= log.clock
    ensures f.Effective? ==> f.floor == Floor(log.Now()) && SawFloor(log.trace, start, f.floor)
    ensures f.NoFloor? ==>
      f.error in {BackendUnqualified, Unavailable, InvalidArgument} && Blamed(log, from, start, target, f.error)
    ensures f.Effective? && seen.Some? ==> seen.value <= f.floor
    ensures max == if f.Effective? && log.Now().floor.Some? then log.Now().floor else seen
    ensures FloorWas(log.trace, start, max)
    ensures log.Undisturbed() ==> log.trace == old(log.trace)
    ensures log.Undisturbed() && FloorSince(seen, log.Now()) ==> f.Effective? && FloorSince(max, log.Now())
  {
    hide FloorWas, FloorFell, ListedInVain, Log.WentDown, Log.WasRefused, Log.WasListed;
    max := seen;
    ghost var mid := log.clock;
    var observed := log.GetFloor();
    WasGrows(old(log.trace), log.trace, start, seen);
    DownSince(log, from, mid, log.clock);
    match observed {
      case FloorDown => f := NoFloor(Unavailable);
      case FloorRejected => f := NoFloor(InvalidArgument);
      case Read(floor) =>
        if seen.Some? && (floor.None? || floor.value < seen.value) {
          f := NoFloor(BackendUnqualified);
          FellSince(log.trace, start, seen);
        } else {
          f := Effective(Floor(log.Now()));
          max := if floor.Some? then floor else seen;
          if floor.Some? { WasNow(log.trace, start, max); }
        }
    }
  }

  /** The bytes are known to have stood; the floor decides between a receipt and an expired one. */
  method AdjudicateCommitted(log: Log, ghost from: nat, ghost start: nat, d: Demand, seen: Option<Seq>)
    returns (r: Appended)
    requires log.Valid() && start < |log.trace| && d.predecessor.at < U64_MAX && from <= log.clock
    requires Stood(log.trace, start, TargetOf(d), DesiredBytes(d)) && FloorWas(log.trace, start, seen)
    modifies log
    ensures log.Valid() && Quiet(old(log.trace), log.trace) && log.sent == old(log.sent) && old(log.clock) <= log.clock
    ensures Verdict(log.trace, start, d, r) && (r.Receipt? || r.effect.Committed?)
    ensures r.Failed? ==> BlamedFor(log, from, start, d, r.kind)
    ensures log.Undisturbed() ==> log.trace == old(log.trace)
    ensures log.Undisturbed() && FloorSince(seen, log.Now()) ==> r == CommittedAnswer(log.Now(), d)
  {
    hide FloorWas, Blamed;
    ghost var i :| start <= i < |log.trace| && Holds(log.trace[i].snap, TargetOf(d), DesiredBytes(d));
    var f, _ := ObserveFloor(log, from, start, TargetOf(d), seen);
    ghost var j := |log.trace| - 1;
    assert Holds(log.trace[i].snap, TargetOf(d), DesiredBytes(d));
    var receipt := RefOf(Desired(d));
    r := match f
      case NoFloor(error) => Failed(Storage(error), Committed(receipt))
      case Effective(floor) =>
        if TargetOf(d) < floor then Failed(Expired(floor, Target), Committed(receipt)) else Receipt(receipt);
    assert f.Effective? ==> Floor(log.trace[j].snap) == f.floor;
  }

  /** Judge the bytes found in the target slot when they are not the desired ones. */
  function ClassifyOccupant(d: Demand, bytes: Bytes): Failure {
    match Decode(d.predecessor.stream, TargetOf(d), bytes)
    case None => Storage(Corrupt(TargetOf(d)))
    case Some(e) => if e.id == d.id then Storage(IdempotencyConflict(TargetOf(d))) else PositionConflict(RefOf(e))
  }

  lemma OccupantTrue(trace: Trace, start: nat, d: Demand, i: nat, bytes: Bytes)
    requires start <= i < |trace| && Holds(trace[i].snap, TargetOf(d), bytes) && bytes != DesiredBytes(d)
    ensures FailureTrue(trace, start, d, ClassifyOccupant(d, bytes))
  {
    var e := Decode(d.predecessor.stream, TargetOf(d), bytes);
    if e.None? {
      assert Undecodable(trace[i].snap, d.predecessor.stream, TargetOf(d));
    } else {
      assert Occupied(trace[i].snap, d, RefOf(e.value));
      assert SawOccupant(trace, start, d, RefOf(e.value));
    }
  }

  /**
   A floor above the target ends the call, and so does one above the predecessor, unless that is the
   immortal genesis.
  */
  function Retention(d: Demand, f: FloorSeen): Option<Failure> {
    match f
    case NoFloor(error) => Some(Storage(error))
    case Effective(floor) =>
      if TargetOf(d) < floor then Some(Expired(floor, Target))
      else if d.predecessor.at > 0 && d.predecessor.at < floor then Some(Expired(floor, Predecessor))
      else None
  }

  /** The target slot held something else: report expiry first, then the occupant. */
  method JudgeOccupant(log: Log, ghost from: nat, ghost start: nat, d: Demand, bytes: Bytes, seen: Option<Seq>,
                       effect: Effect)
    returns (r: Appended)
    requires log.Valid() && start < |log.trace| && !effect.Committed? && from <= log.clock
    requires Holds(log.Now(), TargetOf(d), bytes) && bytes != DesiredBytes(d) && FloorWas(log.trace, start, seen)
    modifies log
    ensures log.Valid() && Quiet(old(log.trace), log.trace) && log.sent == old(log.sent) && old(log.clock) <= log.clock
    ensures Verdict(log.trace, start, d, r) && r.Failed? && r.effect == effect
    ensures BlamedFor(log, from, start, d, r.kind)
    ensures log.Undisturbed() ==> log.trace == old(log.trace)
    ensures log.Undisturbed() && FloorSince(seen, log.Now()) ==> r == Failed(OccupantFault(log.Now(), d, bytes), effect)
  {
    hide FloorWas, Log.WentDown, Log.WasRefused, FloorFell, ListedInVain;
    ghost var i := |log.trace| - 1;
    var f, _ := ObserveFloor(log, from, start, TargetOf(d), seen);
    assert Holds(log.trace[i].snap, TargetOf(d), bytes);
    OccupantTrue(log.trace, start, d, i, bytes);
    r := match f
      case NoFloor(error) => Failed(Storage(error), effect)
      case Effective(floor) =>
        Failed(if TargetOf(d) < floor then Expired(floor, Target) else ClassifyOccupant(d, bytes), effect);
  }

  /** Genesis and predecessor verify, and the floor retires nothing that the demand needs. */
  predicate Supports(s: Snapshot, d: Demand) {
    && EventAt(s, d.predecessor.stream, 0).Some?
    && Shows(s, d.predecessor.stream, d.predecessor.at, d.predecessor)
    && FloorAdmits(s, d)
  }

  /** A log that supports the demand, and shows nothing later, takes the event, or has it already. */
  lemma SupportedIsTaken(s: Snapshot, d: Demand)
    requires Supports(s, d)
    requires TargetOf(d) !in s.slots || Holds(s, TargetOf(d), DesiredBytes(d))
    ensures AnswerAlone(s, d, None) == Receipt(RefOf(Desired(d)))
  {
  }

  /** The target holds a damaged kernel value: report expiry first, then the damage. */
  method JudgeBroken(log: Log, ghost from: nat, ghost start: nat, d: Demand, seen: Option<Seq>) returns (r: Appended)
    requires log.Valid() && start < |log.trace| && Undecodable(log.Now(), d.predecessor.stream, TargetOf(d))
    requires from <= log.clock && FloorWas(log.trace, start, seen)
    modifies log
    ensures log.Valid() && Quiet(old(log.trace), log.trace) && log.sent == old(log.sent) && old(log.clock) <= log.clock
    ensures Verdict(log.trace, start, d, r) && r.Failed? && r.effect == NotAttempted
    ensures BlamedFor(log, from, start, d, r.kind)
    ensures log.Undisturbed() ==> log.trace == old(log.trace)
    ensures log.Undisturbed() && FloorSince(seen, log.Now()) ==>
      r == Refusal(if TargetOf(d) < Floor(log.Now()) then Expired(Floor(log.Now()), Target)
                   else Storage(Corrupt(TargetOf(d))))
  {
    hide FloorWas, Log.WentDown, Log.WasRefused, FloorFell, ListedInVain;
    ghost var i := |log.trace| - 1;
    var f, _ := ObserveFloor(log, from, start, TargetOf(d), seen);
    assert Undecodable(log.trace[i].snap, d.predecessor.stream, TargetOf(d));
    var failure := match f
      case NoFloor(error) => Storage(error)
      case Effective(floor) =>
        if TargetOf(d) < floor then Expired(floor, Target) else Storage(Corrupt(TargetOf(d)));
    r := Failed(failure, NotAttempted);
  }

  /** The predecessor must verify at its own position, all four fields equal. */
  method VerifyPredecessor(log: Log, ghost from: nat, ghost start: nat, d: Demand, genesis: Envelope,
                           seen: Option<Seq>)
    returns (failure: Option<Failure>, max: Option<Seq>)
    requires log.Valid() && start < |log.trace| && d.predecessor.at < U64_MAX && from <= log.clock
    requires Saw(log.trace, start, d.predecessor.stream, 0, RefOf(genesis)) && FloorWas(log.trace, start, seen)
    modifies log
    ensures log.Valid() && Quiet(old(log.trace), log.trace) && log.sent == old(log.sent) && old(log.clock) <= log.clock
    ensures failure.Some? ==> FailureTrue(log.trace, start, d, failure.value)
    ensures failure.Some? ==> BlamedFor(log, from, start, d, failure.value)
    ensures failure.None? ==> Saw(log.trace, start, d.predecessor.stream, d.predecessor.at, d.predecessor)
    ensures FloorWas(log.trace, start, max)
    ensures log.Undisturbed() ==> log.trace == old(log.trace)
    ensures log.Undisturbed() && FloorSince(seen, log.Now()) ==> FloorSince(max, log.Now())
    ensures (log.Undisturbed() && EventAt(log.Now(), d.predecessor.stream, 0) == Some(genesis)
             && FloorSince(seen, log.Now()) && Retention(d, Effective(Floor(log.Now()))).None?) ==>
      failure == PredecessorFault(log.Now(), d)
  {
    hide FloorWas, Log.WentDown, Log.WasRefused, FloorFell, ListedInVain;
    max, failure := seen, None;
    var p := d.predecessor;
    if p.at == 0 {
      if RefOf(genesis) != p { failure := Some(PredecessorMismatch(RefOf(genesis))); }
      return;
    }
    ghost var mid := log.clock;
    var g := log.Get(p.at);
    WasGrows(old(log.trace), log.trace, start, seen);
    DownSince(log, from, mid, log.clock);
    ghost var i := |log.trace| - 1;
    match g {
      case Found(bytes) =>
        match Decode(p.stream, p.at, bytes) {
          case None =>
            failure := Some(Storage(Corrupt(p.at)));
            assert Undecodable(log.trace[i].snap, p.stream, p.at);
          case Some(e) =>
            assert Shows(log.trace[i].snap, p.stream, p.at, RefOf(e));
            if RefOf(e) != p { failure := Some(PredecessorMismatch(RefOf(e))); }
        }
      case Absent =>
        var f;
        f, max := ObserveFloor(log, from, start, TargetOf(d), seen);
        assert p.at !in log.trace[i].snap.slots;
        failure := Retention(d, f);
        if failure.None? { failure := Some(Storage(EventMissing(p.at))); }
      case Broken =>
        failure := Some(Storage(Corrupt(p.at)));
        assert Undecodable(log.trace[i].snap, p.stream, p.at);
      case _ => failure := Some(Storage(ReadError(g, p.at)));
    }
  }

  /** A verified event past the absent target makes the target a hole, which is never repaired. */
  method ProbeLater(log: Log, ghost from: nat, ghost start: nat, d: Demand) returns (failure: Option<Failure>)
    requires log.Valid() && start < |log.trace| && from <= log.clock
    requires SawAbsent(log.trace, start, TargetOf(d))
    modifies log
    ensures log.Valid() && Quiet(old(log.trace), log.trace) && log.sent == old(log.sent) && old(log.clock) < log.clock
    ensures failure.Some? ==> FailureTrue(log.trace, start, d, failure.value)
    ensures failure.Some? ==> BlamedFor(log, from, start, d, failure.value)
    ensures log.Undisturbed() ==> log.trace == old(log.trace)
    ensures log.Undisturbed() ==> failure == HoleFault(log.Now(), d, log.listings(old(log.clock)))
  {
    hide Log.WentDown, Log.WasRefused, FloorFell, Log.WasListed, SawAbsent, Saw, SawCorrupt, HoleFault;
    ghost var mid := log.clock;
    var l := log.NextAfter(TargetOf(d));
    DownSince(log, from, mid, log.clock);
    AbsentStill(old(log.trace), log.trace, start, TargetOf(d));
    HoleUnlisted(log.Now(), d, log.listings(mid));
    if !l.Later? {
      failure := Some(Storage(if l.ListDown? then Unavailable else InvalidArgument));
      return;
    }
    if l.at.None? { return None; }
    failure := JudgeLater(log, from, start, d, l.at.value);
  }

  lemma AbsentStill(a: Trace, b: Trace, start: nat, t: Seq)
    requires a <= b && SawAbsent(a, start, t)
    ensures SawAbsent(b, start, t)
  {
    assert forall i :: 0 <= i < |a| ==> a[i] == b[i];
  }

  lemma HoleUnlisted(s: Snapshot, d: Demand, listed: Option<Seq>)
    ensures listed.None? || listed.value <= TargetOf(d) ==> HoleFault(s, d, listed).None?
  {
  }

  /** LIST showed a position past the absent target: what stands there decides. */
  method JudgeLater(log: Log, ghost from: nat, ghost start: nat, d: Demand, later: Seq)
    returns (failure: Option<Failure>)
    requires log.Valid() && start < |log.trace| && from <= log.clock && later > TargetOf(d)
    requires SawAbsent(log.trace, start, TargetOf(d)) && log.WasListed(from, log.clock, later)
    modifies log
    ensures log.Valid() && Quiet(old(log.trace), log.trace) && log.sent == old(log.sent) && old(log.clock) < log.clock
    ensures failure.Some? && FailureTrue(log.trace, start, d, failure.value)
    ensures BlamedFor(log, from, start, d, failure.value)
    ensures log.Undisturbed() ==> log.trace == old(log.trace) && failure == HoleFault(log.Now(), d, Some(later))
  {
    hide Log.WentDown, Log.WasRefused, FloorFell, Log.WasListed;
    var stream := d.predecessor.stream;
    ghost var next := log.clock;
    var g := log.Get(later);
    ListedStill(log, from, next, log.clock, later);
    DownSince(log, from, next, log.clock);
    AbsentStill(old(log.trace), log.trace, start, TargetOf(d));
    ghost var i := |log.trace| - 1;
    match g {
      case Found(bytes) =>
        match Decode(stream, later, bytes) {
          case None =>
            failure := Some(Storage(Corrupt(later)));
            assert Undecodable(log.trace[i].snap, stream, later);
          case Some(e) =>
            failure := Some(HoleWitnessed(RefOf(e)));
            assert Shows(log.trace[i].snap, stream, later, RefOf(e));
        }
      case Absent =>
        AbsentNow(log.trace, start, later);
        failure := Some(Storage(BackendUnqualified));
      case Broken =>
        failure := Some(Storage(Corrupt(later)));
        assert Undecodable(log.trace[i].snap, stream, later);
      case _ => failure := Some(Storage(ReadError(g, later)));
    }
  }

  lemma ListedStill(log: Log, from: nat, mid: nat, to: nat, t: Seq)
    requires mid <= to && log.WasListed(from, mid, t)
    ensures log.WasListed(from, to, t)
  {
  }

  method VerifiedGenesis(log: Log, ghost from: nat, ghost start: nat, d: Demand)
    returns (genesis: Option<Envelope>, error: StreamsError)
    requires log.Valid() && start < |log.trace| && from <= log.clock
    modifies log
    ensures log.Valid() && Quiet(old(log.trace), log.trace) && log.sent == old(log.sent) && old(log.clock) <= log.clock
    ensures genesis.Some? ==> Saw(log.trace, start, d.predecessor.stream, 0, RefOf(genesis.value))
    ensures genesis.None? ==> FailureTrue(log.trace, start, d, Storage(error))
    ensures genesis.None? ==> Blamed(log, from, start, TargetOf(d), error)
    ensures log.Undisturbed() ==> log.trace == old(log.trace) && genesis == EventAt(log.Now(), d.predecessor.stream, 0)
    ensures log.Undisturbed() && genesis.None? ==> error == if 0 in log.Now().slots then Corrupt(0) else StreamNotFound
  {
    hide Log.WentDown, Log.WasRefused, FloorFell, ListedInVain;
    var stream := d.predecessor.stream;
    ghost var mid := log.clock;
    var g := log.Get(0);
    DownSince(log, from, mid, log.clock);
    ghost var i := |log.trace| - 1;
    match g {
      case Found(bytes) =>
        genesis, error := Decode(stream, 0, bytes), Corrupt(0);
        assert genesis.Some? ==> Shows(log.trace[i].snap, stream, 0, RefOf(genesis.value));
        assert genesis.None? ==> Undecodable(log.trace[i].snap, stream, 0);
      case Absent => genesis, error := None, StreamNotFound;
      case Broken =>
        genesis, error := None, Corrupt(0);
        assert Undecodable(log.trace[i].snap, stream, 0);
      case _ => genesis, error := None, ReadError(g, 0);
    }
  }

  /** Some LIST in the range could have shown what makes this the undisturbed answer. */
  ghost predicate Determined(log: Log, from: nat, to: nat, s: Snapshot, d: Demand, r: Appended) {
    exists k :: from <= k <= to && r == AnswerAlone(s, d, log.listings(k))
  }

  /** Everything before the create: exact reconciliation first, then the gates an absent target must pass. */
  method Prepare(log: Log, ghost from: nat, ghost start: nat, d: Demand)
    returns (settled: Option<Appended>, max: Option<Seq>)
    requires log.Valid() && start < |log.trace| && d.predecessor.at < U64_MAX && from <= log.clock
    modifies log
    ensures log.Valid() && Quiet(old(log.trace), log.trace) && log.sent == old(log.sent) && old(log.clock) <= log.clock
    ensures settled.Some? ==> Verdict(log.trace, start, d, settled.value)
    ensures settled.Some? && settled.value.Failed? ==>
      BlamedFor(log, from, start, d, settled.value.kind) && !settled.value.effect.PossiblyCommitted?
    ensures log.Undisturbed() && settled.Some? && settled.value.Receipt? ==>
      Holds(log.Now(), TargetOf(d), DesiredBytes(d))
    ensures settled.None? ==> Cleared(log.trace, start, d) && FloorWas(log.trace, start, max)
    ensures log.Undisturbed() ==> log.trace == old(log.trace)
    ensures log.Undisturbed() ==>
      Determined(log, old(log.clock), log.clock, log.Now(), d,
                 if settled.Some? then settled.value else Receipt(RefOf(Desired(d))))
    ensures log.Undisturbed() && settled.None? ==>
      TargetOf(d) !in log.Now().slots && FloorSince(max, log.Now()) && Floor(log.Now()) <= TargetOf(d)
  {
    hide FailureTrue, Cleared, Saw, FloorWas, BlamedFor, Blamed, Determined, AnswerAlone, Verdict;
    max := None;
    ghost var first := log.clock;
    var genesis, error := VerifiedGenesis(log, from, start, d);
    if genesis.None? {
      NoGenesisAnswer(log, first, log.clock, log.Now(), d);
      BlamedIs(log, from, start, d, error);
      FailedVerdict(log.trace, start, d, Storage(error));
      return Some(Failed(Storage(error), NotAttempted)), max;
    }
    ghost var mid := log.clock;
    settled, max := PrepareTarget(log, from, start, d, genesis.value);
    DeterminedFrom(log, first, mid, log.clock, log.Now(), d,
                   if settled.Some? then settled.value else Receipt(RefOf(Desired(d))));
  }

  lemma FailedVerdict(trace: Trace, start: nat, d: Demand, f: Failure)
    requires FailureTrue(trace, start, d, f)
    ensures Verdict(trace, start, d, Failed(f, NotAttempted))
  {
  }

  lemma DeterminedFrom(log: Log, from: nat, mid: nat, to: nat, s: Snapshot, d: Demand, r: Appended)
    requires from <= mid
    ensures Determined(log, mid, to, s, d, r) ==> Determined(log, from, to, s, d, r)
  {
  }

  /** The exact target comes first; only an absent one needs the gates. */
  method PrepareTarget(log: Log, ghost from: nat, ghost start: nat, d: Demand, genesis: Envelope)
    returns (settled: Option<Appended>, max: Option<Seq>)
    requires log.Valid() && start < |log.trace| && d.predecessor.at < U64_MAX && from <= log.clock
    requires Saw(log.trace, start, d.predecessor.stream, 0, RefOf(genesis))
    modifies log
    ensures log.Valid() && Quiet(old(log.trace), log.trace) && log.sent == old(log.sent) && old(log.clock) <= log.clock
    ensures settled.Some? ==> Verdict(log.trace, start, d, settled.value)
    ensures settled.Some? && settled.value.Failed? ==>
      BlamedFor(log, from, start, d, settled.value.kind) && !settled.value.effect.PossiblyCommitted?
    ensures log.Undisturbed() && settled.Some? && settled.value.Receipt? ==>
      Holds(log.Now(), TargetOf(d), DesiredBytes(d))
    ensures settled.None? ==> Cleared(log.trace, start, d) && FloorWas(log.trace, start, max)
    ensures log.Undisturbed() ==> log.trace == old(log.trace)
    ensures log.Undisturbed() && EventAt(log.Now(), d.predecessor.stream, 0) == Some(genesis) ==>
      Determined(log, old(log.clock), log.clock, log.Now(), d,
                 if settled.Some? then settled.value else Receipt(RefOf(Desired(d))))
    ensures log.Undisturbed() && settled.None? ==>
      TargetOf(d) !in log.Now().slots && FloorSince(max, log.Now()) && Floor(log.Now()) <= TargetOf(d)
  {
    hide FailureTrue, Cleared, Saw, SawAbsent, Stood, ConfirmedRetained, Shows, FloorWas, BlamedFor, Blamed,
      OccupantFault, Determined, AnswerAlone, AbsentFault, ClassifyOccupant, CommittedAnswer, Log.WentDown,
      Log.WasRefused, AbsentDetermined;
    max := None;
    ghost var was, first := log.trace, log.clock;
    var g := log.Get(TargetOf(d));
    DownSince(log, from, first, log.clock);
    SawGrows(was, log.trace, start, d.predecessor.stream, 0, RefOf(genesis));
    NoFloorYet(log.trace, start);
    match g {
      case Found(bytes) =>
        var r;
        if bytes == DesiredBytes(d) {
          StandsNow(log.trace, start, TargetOf(d), bytes);
          r := AdjudicateCommitted(log, from, start, d, max);
        } else {
          r := JudgeOccupant(log, from, start, d, bytes, max, NotAttempted);
        }
        TakenAnswer(log, first, log.clock, log.Now(), d);
        settled := Some(r);
      case Absent =>
        AbsentNow(log.trace, start, TargetOf(d));
        ghost var mid := log.clock;
        settled, max := ClearAbsent(log, from, start, d, genesis);
        AbsentAnswer(log, mid, log.clock, log.Now(), d, settled);
        DeterminedFrom(log, first, mid, log.clock, log.Now(), d,
                       if settled.Some? then settled.value else Receipt(RefOf(Desired(d))));
      case Broken =>
        BrokenNow(log.Now(), d);
        var r := JudgeBroken(log, from, start, d, max);
        TakenAnswer(log, first, log.clock, log.Now(), d);
        settled := Some(r);
      case _ =>
        PlainErrors(log.trace, start, d);
        DownIsBlamed(log, from, start, d);
        settled := Some(Failed(Storage(ReadError(g, TargetOf(d))), NotAttempted));
    }
  }

  lemma NoGenesisAnswer(log: Log, from: nat, to: nat, s: Snapshot, d: Demand)
    requires from <= to
    ensures EventAt(s, d.predecessor.stream, 0).None? ==>
      Determined(log, from, to, s, d, Refusal(Storage(if 0 in s.slots then Corrupt(0) else StreamNotFound)))
  {
    if EventAt(s, d.predecessor.stream, 0).None? {
      assert AnswerAlone(s, d, log.listings(from)) ==
        Refusal(Storage(if 0 in s.slots then Corrupt(0) else StreamNotFound));
    }
  }

  lemma TakenAnswer(log: Log, from: nat, to: nat, s: Snapshot, d: Demand)
    requires from <= to
    ensures TargetOf(d) in s.slots && EventAt(s, d.predecessor.stream, 0).Some? ==>
      Determined(log, from, to, s, d, TakenSettled(s, d))
  {
    assert TargetOf(d) in s.slots && EventAt(s, d.predecessor.stream, 0).Some? ==>
      AnswerAlone(s, d, log.listings(from)) == TakenSettled(s, d);
  }

  function TakenSettled(s: Snapshot, d: Demand): Appended
    requires TargetOf(d) in s.slots
  {
    if s.slots[TargetOf(d)].bytes == DesiredBytes(d) then CommittedAnswer(s, d)
    else Refusal(OccupantFault(s, d, s.slots[TargetOf(d)].bytes))
  }

  /** Nothing the decoder knows stands in a damaged slot. */
  lemma BrokenNow(s: Snapshot, d: Demand)
    requires TargetOf(d) in s.slots && s.slots[TargetOf(d)].bytes.Damaged?
    ensures Undecodable(s, d.predecessor.stream, TargetOf(d)) && !Holds(s, TargetOf(d), DesiredBytes(d))
    ensures OccupantFault(s, d, s.slots[TargetOf(d)].bytes) ==
      if TargetOf(d) < Floor(s) then Expired(Floor(s), Target) else Storage(Corrupt(TargetOf(d)))
  {
  }

  ghost predicate AbsentDetermined(log: Log, from: nat, to: nat, s: Snapshot, d: Demand, settled: Option<Appended>) {
    exists k :: from <= k <= to && settled == AbsentSettled(s, d, log.listings(k))
  }

  function AbsentSettled(s: Snapshot, d: Demand, listed: Option<Seq>): Option<Appended> {
    var f := AbsentFault(s, d, listed);
    if f.Some? then Some(Refusal(f.value)) else None
  }

  lemma AbsentAnswer(log: Log, from: nat, to: nat, s: Snapshot, d: Demand, settled: Option<Appended>)
    ensures (AbsentDetermined(log, from, to, s, d, settled) && TargetOf(d) !in s.slots
             && EventAt(s, d.predecessor.stream, 0).Some?) ==>
      Determined(log, from, to, s, d, if settled.Some? then settled.value else Receipt(RefOf(Desired(d))))
  {
    if AbsentDetermined(log, from, to, s, d, settled) && TargetOf(d) !in s.slots
      && EventAt(s, d.predecessor.stream, 0).Some? {
      var k :| from <= k <= to && settled == AbsentSettled(s, d, log.listings(k));
      assert AnswerAlone(s, d, log.listings(k)) == if settled.Some? then settled.value else Receipt(RefOf(Desired(d)));
    }
  }

  lemma AbsentEarly(log: Log, from: nat, to: nat, s: Snapshot, d: Demand)
    requires from <= to
    ensures Retention(d, Effective(Floor(s))).Some? ==>
      AbsentDetermined(log, from, to, s, d, Some(Refusal(Retention(d, Effective(Floor(s))).value)))
    ensures Retention(d, Effective(Floor(s))).None? && PredecessorFault(s, d).Some? ==>
      AbsentDetermined(log, from, to, s, d, Some(Refusal(PredecessorFault(s, d).value)))
  {
    assert Retention(d, Effective(Floor(s))).Some? ==>
      AbsentSettled(s, d, log.listings(from)) == Some(Refusal(Retention(d, Effective(Floor(s))).value));
    assert Retention(d, Effective(Floor(s))).None? && PredecessorFault(s, d).Some? ==>
      AbsentSettled(s, d, log.listings(from)) == Some(Refusal(PredecessorFault(s, d).value));
  }

  lemma AbsentLate(log: Log, from: nat, k: nat, to: nat, s: Snapshot, d: Demand)
    requires from <= k <= to && Retention(d, Effective(Floor(s))).None? && PredecessorFault(s, d).None?
    ensures AbsentDetermined(log, from, to, s, d,
      if HoleFault(s, d, log.listings(k)).Some? then Some(Refusal(HoleFault(s, d, log.listings(k)).value)) else None)
  {
    assert AbsentSettled(s, d, log.listings(k)) ==
      if HoleFault(s, d, log.listings(k)).Some? then Some(Refusal(HoleFault(s, d, log.listings(k)).value)) else None;
  }

  lemma BlamedIs(log: Log, from: nat, start: nat, d: Demand, e: StreamsError)
    requires Blamed(log, from, start, TargetOf(d), e)
    ensures BlamedFor(log, from, start, d, Storage(e))
  {
  }

  lemma DownIsBlamed(log: Log, from: nat, start: nat, d: Demand)
    ensures log.WentDown(from, log.clock) ==> BlamedFor(log, from, start, d, Storage(Unavailable))
    ensures log.WasRefused(from, log.clock) ==> BlamedFor(log, from, start, d, Storage(InvalidArgument))
  {
  }

  lemma NoFloorYet(trace: Trace, start: nat)
    ensures FloorWas(trace, start, None)
  {
  }

  lemma SawGrows(a: Trace, b: Trace, start: nat, stream: string, t: Seq, ref: EventRef)
    requires a <= b && Saw(a, start, stream, t, ref)
    ensures Saw(b, start, stream, t, ref)
  {
    assert forall i :: 0 <= i < |a| ==> a[i] == b[i];
  }

  lemma StandsNow(trace: Trace, start: nat, t: Seq, v: Bytes)
    requires start < |trace| && Holds(trace[|trace| - 1].snap, t, v)
    ensures Stood(trace, start, t, v)
  {
  }

  lemma AbsentNow(trace: Trace, start: nat, t: Seq)
    requires start < |trace| && t !in trace[|trace| - 1].snap.slots
    ensures SawAbsent(trace, start, t)
  {
  }

  /** These say nothing of the log. */
  lemma PlainErrors(trace: Trace, start: nat, d: Demand)
    ensures forall e :: e in {Unavailable, InvalidArgument, BackendUnqualified} ==>
      FailureTrue(trace, start, d, Storage(e))
  {
  }

  /** The target is absent: retention, predecessor, no later event, retention again. */
  method ClearAbsent(log: Log, ghost from: nat, ghost start: nat, d: Demand, genesis: Envelope)
    returns (settled: Option<Appended>, max: Option<Seq>)
    requires log.Valid() && start < |log.trace| && d.predecessor.at < U64_MAX && from <= log.clock
    requires SawAbsent(log.trace, start, TargetOf(d))
    requires Saw(log.trace, start, d.predecessor.stream, 0, RefOf(genesis))
    modifies log
    ensures log.Valid() && Quiet(old(log.trace), log.trace) && log.sent == old(log.sent) && old(log.clock) <= log.clock
    ensures settled.Some? ==>
      Verdict(log.trace, start, d, settled.value) && settled.value.Failed? && settled.value.effect.NotAttempted?
    ensures settled.Some? ==> BlamedFor(log, from, start, d, settled.value.kind)
    ensures settled.None? ==> Cleared(log.trace, start, d) && FloorWas(log.trace, start, max)
    ensures log.Undisturbed() ==> log.trace == old(log.trace)
    ensures log.Undisturbed() && EventAt(log.Now(), d.predecessor.stream, 0) == Some(genesis) ==>
      AbsentDetermined(log, old(log.clock), log.clock, log.Now(), d, settled)
    ensures log.Undisturbed() && settled.None? ==> FloorSince(max, log.Now()) && Floor(log.Now()) <= TargetOf(d)
  {
    hide FailureTrue, Cleared, Saw, SawAbsent, SawFloor, Retention, FloorAdmits, ConfirmedRetained, FloorWas,
      Blamed, AbsentDetermined, HoleFault, PredecessorFault;
    var p := d.predecessor;
    var f;
    ghost var was, first := log.trace, log.clock;
    NoFloorYet(log.trace, start);
    f, max := ObserveFloor(log, from, start, TargetOf(d), None);
    RetentionTrue(log.trace, start, d, f);
    RetentionBlamed(log, from, start, d, f);
    var failure := Retention(d, f);
    if failure.Some? {
      AbsentEarly(log, first, log.clock, log.Now(), d);
      return Some(Failed(failure.value, NotAttempted)), max;
    }
    SightingsExtend(was, log.trace, start, p.stream, TargetOf(d), 0, RefOf(genesis));
    was := log.trace;
    failure, max := VerifyPredecessor(log, from, start, d, genesis, max);
    if failure.Some? {
      AbsentEarly(log, first, log.clock, log.Now(), d);
      return Some(Failed(failure.value, NotAttempted)), max;
    }
    SightingsExtend(was, log.trace, start, p.stream, TargetOf(d), 0, RefOf(genesis));
    ghost var mid := log.clock;
    settled, max := ClearLater(log, from, start, d, max);
    if Retention(d, Effective(Floor(log.Now()))).None? && PredecessorFault(log.Now(), d).None? {
      AbsentLate(log, first, mid, log.clock, log.Now(), d);
    }
  }

  /** Second half, once the predecessor is verified: no later event, retention again. */
  method ClearLater(log: Log, ghost from: nat, ghost start: nat, d: Demand, seen: Option<Seq>)
    returns (settled: Option<Appended>, max: Option<Seq>)
    requires log.Valid() && start < |log.trace| && d.predecessor.at < U64_MAX && from <= log.clock
    requires SawAbsent(log.trace, start, TargetOf(d)) && FloorWas(log.trace, start, seen)
    requires Saw(log.trace, start, d.predecessor.stream, d.predecessor.at, d.predecessor)
    modifies log
    ensures log.Valid() && Quiet(old(log.trace), log.trace) && log.sent == old(log.sent) && old(log.clock) <= log.clock
    ensures settled.Some? ==>
      Verdict(log.trace, start, d, settled.value) && settled.value.Failed? && settled.value.effect.NotAttempted?
    ensures settled.Some? ==> BlamedFor(log, from, start, d, settled.value.kind)
    ensures settled.None? ==> Cleared(log.trace, start, d) && FloorWas(log.trace, start, max)
    ensures settled.None? ==> Floor(log.Now()) <= TargetOf(d)
    ensures log.Undisturbed() ==> log.trace == old(log.trace)
    ensures log.Undisturbed() && FloorSince(seen, log.Now()) && Retention(d, Effective(Floor(log.Now()))).None? ==>
      && settled == (if HoleFault(log.Now(), d, log.listings(old(log.clock))).Some?
                     then Some(Refusal(HoleFault(log.Now(), d, log.listings(old(log.clock))).value)) else None)
      && (settled.None? ==> FloorSince(max, log.Now()))
  {
    hide FailureTrue, Cleared, Saw, SawAbsent, SawFloor, Retention, FloorAdmits, ConfirmedRetained, FloorWas,
      Blamed, HoleFault;
    var p := d.predecessor;
    ghost var was := log.trace;
    var failure := ProbeLater(log, from, start, d);
    WasGrows(was, log.trace, start, seen);
    if failure.Some? { return Some(Failed(failure.value, NotAttempted)), seen; }
    SightingsExtend(was, log.trace, start, p.stream, TargetOf(d), p.at, p);
    was := log.trace;
    var f;
    f, max := ObserveFloor(log, from, start, TargetOf(d), seen);
    SightingsExtend(was, log.trace, start, p.stream, TargetOf(d), p.at, p);
    RetentionTrue(log.trace, start, d, f);
    RetentionBlamed(log, from, start, d, f);
    failure := Retention(d, f);
    settled := if failure.Some? then Some(Failed(failure.value, NotAttempted)) else None;
    if failure.None? { ClearedNow(log.trace, start, d); }
  }

  lemma RetentionBlamed(log: Log, from: nat, start: nat, d: Demand, f: FloorSeen)
    requires f.NoFloor? ==> Blamed(log, from, start, TargetOf(d), f.error)
    ensures Retention(d, f).Some? ==> BlamedFor(log, from, start, d, Retention(d, f).value)
    ensures Retention(d, f).None? ==> f.Effective? && f.floor <= TargetOf(d)
  {
  }

  lemma RetentionTrue(trace: Trace, start: nat, d: Demand, f: FloorSeen)
    requires start < |trace| && d.predecessor.at < U64_MAX
    requires f.Effective? ==> SawFloor(trace, start, f.floor) && f.floor == Floor(trace[|trace| - 1].snap)
    requires f.NoFloor? ==> f.error in {BackendUnqualified, Unavailable, InvalidArgument}
    ensures Retention(d, f).Some? ==> FailureTrue(trace, start, d, Retention(d, f).value)
    ensures Retention(d, f).None? ==> FloorAdmits(trace[|trace| - 1].snap, d)
  {
  }

  lemma ClearedNow(trace: Trace, start: nat, d: Demand)
    requires start < |trace| && FloorAdmits(trace[|trace| - 1].snap, d) && SawAbsent(trace, start, TargetOf(d))
    requires Saw(trace, start, d.predecessor.stream, d.predecessor.at, d.predecessor)
    ensures Cleared(trace, start, d)
  {
  }

  lemma SightingsExtend(a: Trace, b: Trace, start: nat, stream: string, absent: Seq, t: Seq, ref: EventRef)
    requires a <= b && SawAbsent(a, start, absent) && Saw(a, start, stream, t, ref)
    ensures SawAbsent(b, start, absent) && Saw(b, start, stream, t, ref)
  {
    assert forall i :: 0 <= i < |a| ==> a[i] == b[i];
  }

  /** After an attempt: the target may also just have been seen absent, which proves no non-effect. */
  ghost predicate UnsureFor(log: Log, from: nat, start: nat, d: Demand, f: Failure)
    reads log
  {
    BlamedFor(log, from, start, d, f) || (f == Storage(Unavailable) && SawAbsent(log.trace, start, TargetOf(d)))
  }

  /** After a create that did not say landed: the exact readback decides what can still be claimed. */
  method Readback(log: Log, ghost from: nat, ghost start: nat, d: Demand, seen: Option<Seq>) returns (r: Appended)
    requires log.Valid() && start < |log.trace| && d.predecessor.at < U64_MAX && from <= log.clock
    requires FloorWas(log.trace, start, seen)
    modifies log
    ensures log.Valid() && Quiet(old(log.trace), log.trace) && log.sent == old(log.sent) && old(log.clock) <= log.clock
    ensures Verdict(log.trace, start, d, r) && (r.Failed? ==> !r.effect.NotAttempted?)
    ensures r.Failed? ==> UnsureFor(log, from, start, d, r.kind)
  {
    hide FloorWas, Log.WentDown, Log.WasRefused, FloorFell, ListedInVain;
    ghost var mid := log.clock;
    var g := log.Get(TargetOf(d));
    WasGrows(old(log.trace), log.trace, start, seen);
    DownSince(log, from, mid, log.clock);
    ghost var i, next := |log.trace| - 1, log.clock;
    if g.Found? {
      if g.bytes == DesiredBytes(d) {
        r := AdjudicateCommitted(log, from, start, d, seen);
      } else {
        r := JudgeOccupant(log, from, start, d, g.bytes, seen, PossiblyCommitted);
      }
      return;
    }
    var f, _ := ObserveFloor(log, from, start, TargetOf(d), seen);
    DownStill(log, from, next, log.clock);
    assert g.Broken? ==> Undecodable(log.trace[i].snap, d.predecessor.stream, TargetOf(d));
    assert g.Absent? ==> TargetOf(d) !in log.trace[i].snap.slots;
    var typed := if g.Absent? then Unavailable else ReadError(g, TargetOf(d));
    var failure := match f
      case Effective(floor) => if TargetOf(d) < floor then Expired(floor, Target) else Storage(typed)
      case NoFloor(error) => if g.Absent? || error.BackendUnqualified? then Storage(error) else Storage(typed);
    r := Failed(failure, PossiblyCommitted);
  }

  lemma DownStill(log: Log, from: nat, mid: nat, to: nat)
    requires mid <= to
    ensures log.WentDown(from, mid) ==> log.WentDown(from, to)
    ensures log.WasRefused(from, mid) ==> log.WasRefused(from, to)
  {
  }

  /**
   Append at exactly the successor of a named predecessor.  Whatever the others do: nothing but the
   desired bytes is ever written and only to that slot; NotAttempted means that nothing was asked of
   the store; a create is only ever issued for a cleared demand; Committed and a receipt mean that
   the desired bytes stood there during the call, and a receipt that a later floor did not retire
   them; every typed failure was true at some instant of the call; an error that names no position is
   given only when a request failed, the floor fell, or LIST showed what was not there; and an
   undisturbed call answers as the log's state determines.
  */
  method Append(log: Log, d: Demand) returns (r: Appended)
    requires log.Valid()
    modifies log
    ensures log.Valid() && WritesOnly(old(log.trace), log.trace, TargetOf(d), DesiredBytes(d))
    ensures SentOnly(old(log.sent), log.sent, TargetOf(d), DesiredBytes(d))
    ensures Verdict(log.trace, |old(log.trace)| - 1, d, r)
    ensures r.Receipt? ==> DeliveredIn(log.trace, |old(log.trace)| - 1, d, r.receipt)
    ensures r.Failed? && r.effect.Committed? ==> DeliveredIn(log.trace, |old(log.trace)| - 1, d, r.effect.receipt)
    ensures r.Failed? && r.effect.NotAttempted? ==> log.sent == old(log.sent) && Quiet(old(log.trace), log.trace)
    ensures log.sent != old(log.sent) || (r.Failed? && r.effect.PossiblyCommitted?) ==>
      Cleared(log.trace, |old(log.trace)| - 1, d)
    ensures Admission(d).Some? ==>
      r == Failed(Storage(Admission(d).value), NotAttempted) && log.trace == old(log.trace)
    ensures Admission(d).None? && r.Failed? ==>
      if r.effect.NotAttempted? then BlamedFor(log, old(log.clock), |old(log.trace)| - 1, d, r.kind)
      else UnsureFor(log, old(log.clock), |old(log.trace)| - 1, d, r.kind)
    ensures Admission(d).None? && log.Undisturbed() ==>
      && Determined(log, old(log.clock), log.clock, old(log.Now()), d, r)
      && (r.Failed? || Holds(old(log.Now()), TargetOf(d), DesiredBytes(d)) ==> log.trace == old(log.trace))
      && (r.Receipt? && !Holds(old(log.Now()), TargetOf(d), DesiredBytes(d)) ==>
            PutStep(old(log.Now()), log.Now(), TargetOf(d), DesiredBytes(d)))
    ensures Admission(d).None? && log.Calm() && old(Supports(log.Now(), d)) ==>
      && (TargetOf(d) !in old(log.Now()).slots ==>
            r.Receipt? && PutStep(old(log.Now()), log.Now(), TargetOf(d), DesiredBytes(d)))
      && (Holds(old(log.Now()), TargetOf(d), DesiredBytes(d)) ==> r.Receipt? && log.trace == old(log.trace))
  {
    if Admission(d).Some? {
      return Failed(Storage(Admission(d).value), NotAttempted);
    }
    hide FailureTrue, Cleared, ConfirmedRetained, Shows, WritesOnly, BlamedFor, Determined, FloorWas, DeliveredIn,
      Admission;
    ghost var t, v, start, from := TargetOf(d), DesiredBytes(d), |log.trace| - 1, log.clock;
    var settled, max := Prepare(log, from, start, d);
    QuietWrites(old(log.trace), log.trace, t, v);
    if settled.Some? {
      CalmIsTaken(log, from, log.clock, old(log.Now()), d, settled.value);
      ReceiptDelivered(log.trace, start, d, settled.value);
      return settled.value;
    }
    ghost var before, mid := log.trace, log.clock;
    r := Attempt(log, from, start, d, max);
    ClearedExtends(before, log.trace, start, d);
    WritesOnlyThen(old(log.trace), before, log.trace, t, v);
    DeterminedStill(log, from, mid, log.clock, old(log.Now()), d, Receipt(RefOf(Desired(d))));
    CalmIsTaken(log, from, log.clock, old(log.Now()), d, r);
    ReceiptDelivered(log.trace, start, d, r);
  }

  lemma CalmIsTaken(log: Log, from: nat, to: nat, s: Snapshot, d: Demand, r: Appended)
    ensures (log.Calm() && Determined(log, from, to, s, d, r) && Supports(s, d)
             && (TargetOf(d) !in s.slots || Holds(s, TargetOf(d), DesiredBytes(d)))) ==>
      r == Receipt(RefOf(Desired(d)))
  {
    hide AnswerAlone, Supports, Log.Undisturbed;
    if Supports(s, d) && (TargetOf(d) !in s.slots || Holds(s, TargetOf(d), DesiredBytes(d))) {
      SupportedIsTaken(s, d);
    }
  }

  lemma DeterminedStill(log: Log, from: nat, mid: nat, to: nat, s: Snapshot, d: Demand, r: Appended)
    requires mid <= to
    ensures Determined(log, from, mid, s, d, r) ==> Determined(log, from, to, s, d, r)
  {
  }

  /** The one conditional create, and what can still be claimed after it. */
  method Attempt(log: Log, ghost from: nat, ghost start: nat, d: Demand, seen: Option<Seq>) returns (r: Appended)
    requires log.Valid() && start < |log.trace| && d.predecessor.at < U64_MAX && from <= log.clock
    requires FloorWas(log.trace, start, seen)
    modifies log
    ensures log.Valid() && WritesOnly(old(log.trace), log.trace, TargetOf(d), DesiredBytes(d))
    ensures SentOnly(old(log.sent), log.sent, TargetOf(d), DesiredBytes(d)) && old(log.clock) <= log.clock
    ensures Verdict(log.trace, start, d, r) && (r.Failed? ==> !r.effect.NotAttempted?)
    ensures r.Failed? ==> UnsureFor(log, from, start, d, r.kind)
    ensures log.Undisturbed() && TargetOf(d) !in old(log.Now()).slots && FloorSince(seen, old(log.Now()))
            && Floor(old(log.Now())) <= TargetOf(d) ==>
      r == Receipt(RefOf(Desired(d))) && PutStep(old(log.Now()), log.Now(), TargetOf(d), DesiredBytes(d))
  {
    hide FailureTrue, ConfirmedRetained, OwnStep, BlamedFor, FloorWas, Planted, WritesOnly;
    ghost var t, v := TargetOf(d), DesiredBytes(d);
    var c := log.Create(TargetOf(d), DesiredBytes(d));
    WasGrows(old(log.trace), log.trace, start, seen);
    ghost var before := log.trace;
    if c.Landed? {
      PlantedStood(log.trace, start, t, v, |old(log.trace)|);
      r := AdjudicateCommitted(log, from, start, d, seen);
    } else {
      r := Readback(log, from, start, d, seen);
    }
    QuietWrites(before, log.trace, t, v);
    WritesOnlyThen(old(log.trace), before, log.trace, t, v);
  }

  lemma PlantedStood(trace: Trace, start: nat, t: Seq, v: Bytes, from: nat)
    requires start <= from && Planted(trace, from, t, v)
    ensures Stood(trace, start, t, v)
  {
    var i, j :| from <= i <= j < |trace| && OwnPut(trace, i, t, v)
      && Era(trace[j].snap, t) == trace[i].snap.slots[t].era;
    assert Holds(trace[i].snap, t, v);
  }

  lemma ClearedExtends(a: Trace, b: Trace, start: nat, d: Demand)
    requires a <= b && Cleared(a, start, d)
    ensures Cleared(b, start, d)
  {
    assert forall i :: 0 <= i < |a| ==> a[i] == b[i];
  }

  // ---- Over legal timelines -----------------------------------------------------------

  /**
   The moments of one call's timeline lie, in order, inside a longer one.  Who made a moment is not
   compared: one call's own put is another's interference.
  */
  ghost predicate Within(a: Trace, b: Trace, offset: nat) {
    offset + |a| <= |b| && forall i :: 0 <= i < |a| ==> a[i].snap == b[offset + i].snap
  }

  /** A receipt's verdict speaks of snapshots only, so it holds on any timeline that contains the call's. */
  lemma VerdictShared(a: Trace, b: Trace, offset: nat, start: nat, d: Demand, r: EventRef)
    requires Within(a, b, offset) && Verdict(a, start, d, Receipt(r))
    ensures Verdict(b, offset + start, d, Receipt(r))
  {
    var t, v := TargetOf(d), DesiredBytes(d);
    var i, j :| start <= i <= j < |a| && Holds(a[i].snap, t, v) && Floor(a[j].snap) <= t;
    assert Holds(b[offset + i].snap, t, v) && Floor(b[offset + j].snap) <= t;
  }

  /**
   Same-slot agreement: any two receipts for one position of a stream are equal, and name the same
   event to the last byte, however the two calls, trims and sweeps interleave: a slot that was swept
   and filled again in between is always reported expired by the floor look that follows.
  */
  lemma SameSlotAgreement(trace: Trace, s1: nat, d1: Demand, r1: EventRef, s2: nat, d2: Demand, r2: EventRef)
    requires Legal(trace)
    requires Verdict(trace, s1, d1, Receipt(r1)) && Verdict(trace, s2, d2, Receipt(r2))
    requires r1.at == r2.at
    ensures r1 == r2 && Desired(d1) == Desired(d2)
  {
    SameSlot(trace, s1, s2, r1.at, DesiredBytes(d1), DesiredBytes(d2));
  }

  /** Whenever a create was issued, the predecessor and its retention held together at one instant. */
  lemma {:induction false} PredecessorStood(trace: Trace, start: nat, d: Demand)
    requires Legal(trace) && Cleared(trace, start, d)
    ensures exists j :: start <= j < |trace| && FloorAdmits(trace[j].snap, d)
              && Shows(trace[j].snap, d.predecessor.stream, d.predecessor.at, d.predecessor)
  {
    var p := d.predecessor;
    var i, j :| start <= i <= j < |trace| && Shows(trace[i].snap, p.stream, p.at, p) && FloorAdmits(trace[j].snap, d);
    if p.at > 0 {
      SlotStays(trace, i, j, p.at, trace[i].snap.slots[p.at].bytes);
    } else {
      GenesisStays(trace, i, j, trace[i].snap.slots[0]);
    }
    assert Shows(trace[j].snap, p.stream, p.at, p);
  }

  /** No floor ever retires the genesis. */
  lemma {:induction false} GenesisStays(trace: Trace, i: nat, j: nat, s: Stored)
    requires Legal(trace) && i <= j < |trace| && 0 in trace[i].snap.slots && trace[i].snap.slots[0] == s
    ensures 0 in trace[j].snap.slots && trace[j].snap.slots[0] == s
    decreases j
  {
    if i < j {
      GenesisStays(trace, i, j - 1, s);
      assert LegalAt(trace, j);
    }
  }

  // ---- Caller-named creation -------------------------------------------------------------

  datatype StreamCreated = Created | Existing | ConfigurationConflict | NotCreated(error: StreamsError)

  function Genesis(stream: string, config: seq<byte>): Envelope {
    Envelope(stream, 0, "genesis", "stream.genesis.v1", config)
  }

  ghost predicate SawConflict(trace: Trace, start: nat, stream: string, config: seq<byte>) {
    exists i :: start <= i < |trace| && EventAt(trace[i].snap, stream, 0).Some?
      && !Holds(trace[i].snap, 0, Wire(Genesis(stream, config), 0))
  }

  /** Refused before any request: an ill-formed id, an oversize genesis, or a key that the kernel reserves. */
  function CreationRefused(stream: string, config: seq<byte>): Option<StreamsError> {
    if !ValidIdentifier(stream) then Some(InvalidArgument)
    else if EncodedLen(Genesis(stream, config)) > MAX_ENCODED_ENVELOPE_BYTES then Some(EnvelopeTooLarge)
    else if !Admissible(NAMESPACE, LogKey(stream, 0)) then Some(InvalidArgument)
    else None
  }

  /** A creation is admitted exactly when its genesis will decode, fits, and its key is the caller's to write. */
  lemma CreationAdmittedIff(stream: string, config: seq<byte>)
    ensures CreationRefused(stream, config).None? <==>
      && Decode(stream, 0, Wire(Genesis(stream, config), 0)) == Some(Genesis(stream, config))
      && EncodedLen(Genesis(stream, config)) <= MAX_ENCODED_ENVELOPE_BYTES
      && Admissible(NAMESPACE, LogKey(stream, 0))
  {
    hide Admissible, LogKey;
    GenesisNames();
  }

  lemma GenesisNames()
    ensures ValidIdentifier("genesis") && ValidIdentifier("stream.genesis.v1")
  {
    assert forall i :: 0 <= i < |"genesis"| ==> Fitting("genesis", i);
    assert forall i :: 0 <= i < |"stream.genesis.v1"| ==> Fitting("stream.genesis.v1", i);
  }

  /** A verified genesis of this configuration was there. */
  ghost predicate Configured(trace: Trace, start: nat, stream: string, config: seq<byte>) {
    exists i :: start <= i < |trace| && EventAt(trace[i].snap, stream, 0).Some?
      && EventAt(trace[i].snap, stream, 0).value.payload == config
  }

  lemma CreationConfigured(log: Log, from: nat, start: nat, stream: string, config: seq<byte>, r: StreamCreated)
    requires CreationRefused(stream, config).None? && CreationTrue(log, from, start, stream, config, r)
    ensures r.Created? || r.Existing? ==> Configured(log.trace, start, stream, config)
  {
    CreationAdmittedIff(stream, config);
    hide Admissible, LogKey, EncodedLen, ValidIdentifier, CreationRefused;
    if r.Created? || r.Existing? {
      var v := Wire(Genesis(stream, config), 0);
      if r.Created? { PlantedStood(log.trace, start, 0, v, start + 1); }
      var i :| start <= i < |log.trace| && Holds(log.trace[i].snap, 0, v);
      assert EventAt(log.trace[i].snap, stream, 0) == Some(Genesis(stream, config));
    }
  }

  /** What an undisturbed creation answers. */
  function CreationAlone(s: Snapshot, stream: string, config: seq<byte>): StreamCreated {
    if 0 !in s.slots then Created
    else if s.slots[0].bytes == Wire(Genesis(stream, config), 0) then Existing
    else if EventAt(s, stream, 0).Some? then ConfigurationConflict
    else NotCreated(Corrupt(0))
  }

  /** What each answer of a creation proves about the log and about the call's own part. */
  ghost predicate CreationTrue(log: Log, from: nat, start: nat, stream: string, config: seq<byte>, r: StreamCreated)
    reads log
  {
    var v := Wire(Genesis(stream, config), 0);
    match r
    case Created => Planted(log.trace, start + 1, 0, v)
    case Existing => Stood(log.trace, start, 0, v)
    case ConfigurationConflict => SawConflict(log.trace, start, stream, config)
    case NotCreated(error) =>
      match error
      case Corrupt(t) => t == 0 && SawCorrupt(log.trace, start, stream, 0)
      case Unavailable => log.Doubtful(from, log.clock) || EraMoved(log.trace, |log.trace|, 0)
      case InvalidArgument => log.WasRefused(from, log.clock)
      case BackendUnqualified => Taken(log.trace, start, 0) && SawAbsent(log.trace, start, 0)
      case _ => false
  }

  /**
   Existence is the conditional create at seq 0; a lost race is settled by one readback.  `Created` is
   said only if this very call put the genesis where nothing stood.
  */
  method CreateStreamWithId(log: Log, stream: string, config: seq<byte>) returns (r: StreamCreated)
    requires log.Valid()
    modifies log
    ensures log.Valid()
    ensures var v := Wire(Genesis(stream, config), 0);
      WritesOnly(old(log.trace), log.trace, 0, v) && SentOnly(old(log.sent), log.sent, 0, v)
    ensures CreationRefused(stream, config).Some? ==>
      log.trace == old(log.trace) && log.sent == old(log.sent) && r == NotCreated(CreationRefused(stream, config).value)
    ensures CreationRefused(stream, config).None? ==>
      CreationTrue(log, old(log.clock), |old(log.trace)| - 1, stream, config, r)
    ensures r.Created? || r.Existing? ==> Configured(log.trace, |old(log.trace)| - 1, stream, config)
    ensures log.Undisturbed() && CreationRefused(stream, config).None? ==>
      && r == CreationAlone(old(log.Now()), stream, config)
      && if r.Created? then PutStep(old(log.Now()), log.Now(), 0, Wire(Genesis(stream, config), 0))
         else log.trace == old(log.trace)
  {
    hide Admissible, LogKey, EncodedLen, ValidIdentifier, CreationTrue, Configured;
    var refused := CreationRefused(stream, config);
    if refused.Some? { return NotCreated(refused.value); }
    r := CreateAdmitted(log, stream, config);
    CreationConfigured(log, old(log.clock), |old(log.trace)| - 1, stream, config, r);
  }

  method CreateAdmitted(log: Log, stream: string, config: seq<byte>) returns (r: StreamCreated)
    requires log.Valid()
    modifies log
    ensures log.Valid()
    ensures var v := Wire(Genesis(stream, config), 0);
      WritesOnly(old(log.trace), log.trace, 0, v) && SentOnly(old(log.sent), log.sent, 0, v)
    ensures CreationTrue(log, old(log.clock), |old(log.trace)| - 1, stream, config, r)
    ensures log.Undisturbed() ==>
      && r == CreationAlone(old(log.Now()), stream, config)
      && if r.Created? then PutStep(old(log.Now()), log.Now(), 0, Wire(Genesis(stream, config), 0))
         else log.trace == old(log.trace)
  {
    hide WritesOnly, Planted, EraMoved, Log.Doubtful, Log.WasRefused, Log.WentDown, OwnStep;
    ghost var from := log.clock;
    var v := Wire(Genesis(stream, config), 0);
    var c := log.Create(0, v);
    if c.Landed? { return Created; }
    if c.Unresolved? { return NotCreated(Unavailable); }
    ghost var before := log.trace;
    r := ReadExisting(log, from, |old(log.trace)| - 1, stream, config);
    QuietWrites(before, log.trace, 0, v);
    WritesOnlyThen(old(log.trace), before, log.trace, 0, v);
  }

  /** The create said that something stands at seq 0: read it and compare. */
  method ReadExisting(log: Log, ghost from: nat, ghost start: nat, stream: string, config: seq<byte>)
    returns (r: StreamCreated)
    requires log.Valid() && from <= log.clock && start < |log.trace| && Taken(log.trace, start, 0)
    modifies log
    ensures log.Valid() && Quiet(old(log.trace), log.trace) && log.sent == old(log.sent)
    ensures CreationTrue(log, from, start, stream, config, r) && !r.Created?
    ensures log.Undisturbed() ==> log.trace == old(log.trace)
    ensures log.Undisturbed() && 0 in log.Now().slots ==> r == CreationAlone(log.Now(), stream, config)
  {
    hide Log.WasRefused, Log.WentDown, EraMoved, Taken, Log.Doubtful;
    var v := Wire(Genesis(stream, config), 0);
    ghost var mid := log.clock;
    var g := log.Get(0);
    TakenStill(old(log.trace), log.trace, start, 0);
    DownSince(log, from, mid, log.clock);
    DownIsDoubt(log, from, log.clock);
    ghost var i := |log.trace| - 1;
    match g {
      case Found(bytes) =>
        assert bytes == v ==> Holds(log.trace[i].snap, 0, v);
        r := if bytes == v then Existing
             else if Decode(stream, 0, bytes).Some? then ConfigurationConflict else NotCreated(Corrupt(0));
        assert r == NotCreated(Corrupt(0)) ==> Undecodable(log.trace[i].snap, stream, 0);
        assert r.ConfigurationConflict? ==> EventAt(log.trace[i].snap, stream, 0).Some?;
      case Absent =>
        AbsentNow(log.trace, start, 0);
        r := NotCreated(BackendUnqualified);
      case Broken =>
        r := NotCreated(Corrupt(0));
        assert Undecodable(log.trace[i].snap, stream, 0);
      case _ => r := NotCreated(ReadError(g, 0));
    }
  }

  lemma TakenStill(a: Trace, b: Trace, from: nat, t: Seq)
    requires a <= b && Taken(a, from, t)
    ensures Taken(b, from, t)
  {
    assert forall i :: 0 <= i < |a| ==> a[i] == b[i];
  }

  lemma DownIsDoubt(log: Log, from: nat, to: nat)
    ensures log.WentDown(from, to) ==> log.Doubtful(from, to)
  {
  }
}
