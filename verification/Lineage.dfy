/**
 One lineage under any number of concurrent callers: appends, destroys and state reads as program
 counters over the shared store, one request a step.

 A run is a schedule: which call moves next, and what the network does to its request.  A request
 may be lost, may land with its reply lost, and a lost one may still land later and more than
 once.  A caller that stops for good is one that the schedule never moves again.
*/
module Lineage {
  import opened Basics
  import opened EraStore
  import opened Records

  datatype HeadBody = HeadBody(lineage: nat, digest: Digest, prior: Option<Position>)

  /** A canonical head: `era` is its incarnation, `rank` its generation. */
  type Head = Cell<HeadBody>

  /** An append of a batch, or of one record on its own. */
  datatype Call =
    | Genesis(records: seq<Record>)
    | Successor(records: seq<Record>, expected: Head, single: bool)
    | Destroy
    | ReadState

  datatype Outcome =
    | Acked(head: Head)
    | Conflict
    | Malformed
    | DigestMismatch
    | Incomplete
    | NotAllowed
    | Unavailable
    | Destroyed
    | SeenPresent(head: Head)
    | SeenDestroyed(tomb: Tombstone, effects: nat)
    | SeenAbsent(effects: nat)  // `effects`: how many the head key had seen at the head read

  datatype Pc =
    | Publishing(k: nat)                   // put-if-absent of records[k]
    | ReadingBack(k: nat)                  // its readback
    | StampRead(left: nat)                 // create_head: which era to stamp
    | HeadPut(left: nat, era: nat)
    | HeadRecheck(left: nat, era: nat)
    | HeadEvict(left: nat, era: nat)
    | GateRead                             // ensure_open_era
    | HeadCompare                          // load_head against the token
    | CasPut
    | CasRecheck
    | CasRetire                            // retire_closed_era_publication
    | DestroyLoad
    | TombPut(seen: Head)
    | BumpRead(seen: Head, left: nat)
    | BumpPut(seen: Head, left: nat, from: Option<nat>)
    | TailDelete(seen: Head)
    | StateHead
    | StateTomb(effects: nat)
    | Finished(outcome: Outcome)

  datatype Proc = Proc(call: Call, pc: Pc)

  datatype Request = Guarded(write: Write<HeadBody>) | PutObject(blob: Blob)

  datatype State = State(
    lineage: nat,
    successors: bool,                      // the lineage's closed successor policy
    store: Store<HeadBody>,
    objects: Objects,
    procs: map<nat, Proc>,
    floating: seq<Request>)                // requests reported failed that may still land

  datatype Net =
    | Deliver
    | Refuse                               // an If-Match turned down although the bytes agree
    | LoseRequest
    | LoseReply

  datatype Event = Begin(p: nat, call: Call) | Move(p: nat, net: Net) | Late(k: nat)

  datatype Reply = Done | Refused | Missing | Lost

  const ATTEMPTS: nat := 8

  function Initial(lineage: nat, successors: bool): State {
    State(lineage, successors, Store(None, None, None, []), map[], map[], [])
  }

  // ---- Requests -----------------------------------------------------------

  function Land(s: State, r: Request): State {
    match r
    case Guarded(w) => s.(store := Apply(s.store, w))
    case PutObject(blob) =>
      if Sha256(blob) in s.objects then s else s.(objects := s.objects[Sha256(blob) := blob])
  }

  predicate IfMatch(r: Request) {
    r.Guarded? && ((r.write.PutCell? && r.write.over.Some?) || r.write.DeleteCell?
                   || (r.write.PutCounter? && r.write.from.Some?))
  }

  function Answer(s: State, r: Request): Reply {
    match r
    case PutObject(blob) => if Sha256(blob) in s.objects then Refused else Done
    case Guarded(w) =>
      if Applies(s.store, w) then Done
      else if w.DeleteCell? && s.store.cell.None? then Missing else Refused
  }

  function Send(s: State, r: Request, net: Net): (State, Reply) {
    match net
    case Deliver => (Land(s, r), Answer(s, r))
    case Refuse => if IfMatch(r) then (s, Refused) else (Land(s, r), Answer(s, r))
    case LoseRequest => (s.(floating := s.floating + [r]), Lost)
    case LoseReply => (Land(s, r), Lost)
  }

  // ---- Calls --------------------------------------------------------------

  function Terminal(records: seq<Record>): Record
    requires records != []
  {
    records[|records| - 1]
  }

  /** The head an append publishes for a batch. */
  function HeadOf(lineage: nat, records: seq<Record>, era: nat): Head
    requires records != []
  {
    var last := Terminal(records);
    Cell(era, last.sequence, HeadBody(lineage, DigestOf(last), last.prior))
  }

  function PositionOfHead(h: Head): Position { Position(h.rank, h.body.digest) }

  /**
   Validation of a successor.  A batch needs a representable generation after it, and an empty one passes;
   a single record may take the last generation.
  */
  predicate SuccessorOk(lineage: nat, call: Call)
    requires call.Successor?
  {
    var first, prior := call.expected.rank + 1, Some(PositionOfHead(call.expected));
    && first <= U64_MAX
    && if call.single then |call.records| == 1 && Linked(lineage, call.records, first, prior)
       else BatchPasses(lineage, call.records, first, prior)
  }

  /** A batch without records: nothing is appended, and yet the head is published again. */
  predicate EmptyBatch(call: Call) { call.Successor? && call.records == [] }

  /** The head an append publishes; an empty batch repeats the expected position, without its prior. */
  function HeadFor(lineage: nat, call: Call, era: nat): Head
    requires Appends(call) || EmptyBatch(call)
  {
    if EmptyBatch(call) then Cell(era, call.expected.rank, HeadBody(lineage, call.expected.body.digest, None))
    else HeadOf(lineage, call.records, era)
  }

  /** The decoder accepts a head only with the prior that its generation calls for. */
  predicate Decodable(h: Head) {
    if h.rank == 0 then h.body.prior.None?
    else h.body.prior.Some? && h.body.prior.value.generation == h.rank - 1
  }

  /** Admission: everything a call checks before its first request. */
  function Admit(s: State, call: Call): Pc {
    match call
    case Genesis(records) =>
      if BatchOk(s.lineage, records, 0, None) then Publishing(0) else Finished(Outcome.Malformed)
    case Successor(_, expected, _) =>
      if !s.successors then Finished(NotAllowed)
      else if expected.body.lineage != s.lineage then Finished(Conflict)
      else GateRead
    case Destroy => DestroyLoad
    case ReadState => StateHead
  }

  function Goto(s: State, p: nat, pc: Pc): State
    requires p in s.procs
  {
    s.(procs := s.procs[p := s.procs[p].(pc := pc)])
  }

  predicate Appends(call: Call) { (call.Genesis? || call.Successor?) && call.records != [] }

  /** Which program counters a call can be at. */
  predicate Fits(proc: Proc) {
    match proc.pc
    case Publishing(k) => Appends(proc.call) && k < |proc.call.records|
    case ReadingBack(k) => Appends(proc.call) && k < |proc.call.records|
    case StampRead(_) => proc.call.Genesis? && Appends(proc.call)
    case HeadPut(_, _) => proc.call.Genesis? && Appends(proc.call)
    case HeadRecheck(_, _) => proc.call.Genesis? && Appends(proc.call)
    case HeadEvict(_, _) => proc.call.Genesis? && Appends(proc.call)
    case GateRead => proc.call.Successor?
    case HeadCompare => proc.call.Successor?
    case CasPut => proc.call.Successor?
    case CasRecheck => proc.call.Successor?
    case CasRetire => proc.call.Successor?
    case _ => true
  }

  /** The head an append is about to publish, re-check or withdraw. */
  function Target(lineage: nat, proc: Proc): Head
    requires Appends(proc.call) || EmptyBatch(proc.call)
  {
    var era := if proc.pc.HeadPut? || proc.pc.HeadRecheck? || proc.pc.HeadEvict? then proc.pc.era
               else if proc.call.Successor? then proc.call.expected.era else 0;
    HeadFor(lineage, proc.call, era)
  }

  /** The write a call issues at its program counter; None where it reads. */
  function WriteAt(lineage: nat, p: nat, proc: Proc): Option<Request>
    requires Fits(proc)
  {
    match proc.pc
    case Publishing(k) => Some(PutObject(RecordBlob(proc.call.records[k])))
    case HeadPut(_, _) => Some(Guarded(PutCell(p, Target(lineage, proc), None)))
    case HeadEvict(_, _) => Some(Guarded(DeleteCell(Target(lineage, proc))))
    case CasPut => Some(Guarded(PutCell(p, Target(lineage, proc), Some(proc.call.expected))))
    case CasRetire => Some(Guarded(DeleteCell(Target(lineage, proc))))
    case TombPut(seen) => Some(Guarded(PutTomb(Tombstone(seen.era, seen.rank))))
    case BumpPut(_, _, from) => Some(Guarded(PutCounter(from)))
    case TailDelete(seen) => Some(Guarded(DeleteCell(seen)))
    case _ => None
  }

  /** Where a write's reply leads. */
  function Resume(proc: Proc, reply: Reply): Pc {
    if reply.Lost? then Finished(Unavailable) else
    match proc.pc
    case Publishing(k) => ReadingBack(k)  // created, or already there
    // create_head
    case HeadPut(left, era) => if reply.Done? then HeadRecheck(left, era) else Finished(Conflict)
    case HeadEvict(left, _) =>
      if reply.Refused? then Finished(Conflict)
      else if left > 1 then StampRead(left - 1) else Finished(Unavailable)
    // append_successor
    case CasPut => if reply.Done? then CasRecheck else Finished(Conflict)
    case CasRetire => Finished(Conflict)  // gone or replaced: nothing of ours survives
    // destroy
    case TombPut(seen) => BumpRead(seen, ATTEMPTS)  // written, or an earlier witness stands
    case BumpPut(seen, left, _) =>
      if reply.Done? then TailDelete(seen)
      else if left > 1 then BumpRead(seen, left - 1) else Finished(Unavailable)
    case TailDelete(_) => if reply.Refused? then Finished(Conflict) else Finished(Destroyed)
    case _ => proc.pc
  }

  /** Where a read leads. */
  function Look(s: State, proc: Proc, net: Net): Pc
    requires Fits(proc)
  {
    if net.LoseRequest? || net.LoseReply? then Finished(Unavailable) else
    match proc.pc
    // publish_immutable's readback
    case ReadingBack(k) =>
      var blob := RecordBlob(proc.call.records[k]);
      if Sha256(blob) !in s.objects then Finished(Unavailable)
      else if s.objects[Sha256(blob)] != blob then Finished(Outcome.DigestMismatch)
      else if k + 1 < |proc.call.records| then Publishing(k + 1)
      else if proc.call.Genesis? then StampRead(ATTEMPTS) else CasPut
    // create_head
    case StampRead(left) => HeadPut(left, Era(s.store))
    case HeadRecheck(left, era) =>
      if Era(s.store) == era then Finished(Acked(Target(s.lineage, proc))) else HeadEvict(left, era)
    // append_successor
    case GateRead => if Era(s.store) == proc.call.expected.era then HeadCompare else Finished(Conflict)
    case HeadCompare =>
      if s.store.cell.None? then Finished(Outcome.Incomplete)
      else if !Decodable(s.store.cell.value) then Finished(Outcome.Malformed)
      else if s.store.cell != Some(proc.call.expected) || net.Refuse? then Finished(Conflict)
      else if !SuccessorOk(s.lineage, proc.call) then Finished(Outcome.Malformed)
      else if proc.call.records == [] then CasPut else Publishing(0)
    case CasRecheck =>
      if Era(s.store) == proc.call.expected.era then Finished(Acked(Target(s.lineage, proc))) else CasRetire
    // destroy
    case DestroyLoad =>
      if s.store.cell.None? then Finished(Destroyed)
      else if !Decodable(s.store.cell.value) then Finished(Outcome.Malformed)
      else TombPut(s.store.cell.value)
    case BumpRead(seen, left) =>
      if s.store.counter.Some? && s.store.counter.value >= U64_MAX then Finished(Unavailable)
      else BumpPut(seen, left, s.store.counter)
    // read_head_state
    case StateHead =>
      if s.store.cell.None? then StateTomb(|s.store.log|)
      else if !Decodable(s.store.cell.value) then Finished(Outcome.Malformed)
      else Finished(SeenPresent(s.store.cell.value))
    case StateTomb(effects) =>
      Finished(if s.store.tomb.Some? then SeenDestroyed(s.store.tomb.value, effects) else SeenAbsent(effects))
    case _ => proc.pc
  }

  function Step(s: State, p: nat, net: Net): State
    requires p in s.procs
  {
    var proc := s.procs[p];
    if !Fits(proc) || proc.pc.Finished? then s else
    match WriteAt(s.lineage, p, proc)
    case Some(r) => var (t, reply) := Send(s, r, net); Goto(t, p, Resume(proc, reply))
    case None => Goto(s, p, Look(s, proc, net))
  }

  /** One event; events that name nothing leave the state alone. */
  function Next(s: State, e: Event): State {
    match e
    case Begin(p, call) =>
      if p in s.procs then s else s.(procs := s.procs[p := Proc(call, Admit(s, call))])
    case Move(p, net) => if p in s.procs then Step(s, p, net) else s
    case Late(k) => if k < |s.floating| then Land(s, s.floating[k]) else s
  }

  function Run(s: State, events: seq<Event>): State
    decreases |events|
  {
    if events == [] then s else Next(Run(s, events[..|events| - 1]), events[|events| - 1])
  }
}
