/**
 One key of a keyspace under any number of concurrent callers: creates and compare-exchanges of
 inline and chunked values, whole or streamed, destroys, and chunk sweeps.

 As for lineages, a run is a schedule, one request a step, and a lost request may still land later.
 The key's control object is its own entity tag; a chunk lives at an address that carries the
 digest of its bytes.
*/
module Values {
  import opened Basics
  import opened EraStore

  type Payload = seq<byte>

  /** SHA-256 of chunk bytes, injective by construction. */
  datatype ChunkDigest = ChunkSha(bytes: Payload)

  datatype Entry = Entry(len: nat, digest: ChunkDigest)

  /** The 128 random bits that name one pending write: which call, and which of its attempts. */
  datatype Commit = Commit(who: nat, attempt: nat)

  datatype Body = Inline(payload: Payload) | Manifest(commit: Commit, entries: seq<Entry>)

  /** A control object: `era` is its incarnation, `rank` its version. */
  type Control = Cell<Body>

  datatype ChunkAddr = ChunkAddr(era: nat, version: nat, digest: ChunkDigest)

  /** An inline payload, or the ordered chunks of a larger value; a streamed writer sends chunks. */
  datatype Content = Whole(payload: Payload) | Chunked(chunks: seq<Payload>, streamed: bool)

  datatype Call =
    | Create(content: Content)
    | CompareExchange(expected: Control, content: Content)
    | Destroy
    | Sweep

  datatype Outcome =
    | Acked(control: Control)
    | AlreadyExists
    | PreconditionFailed
    | LostConflict(control: Control)  // the oracle's row 2 for the control this call tried to publish
    | StaleIncarnation
    | VersionExhausted
    | ChunkCountInvalid
    | ChunkIntegrity
    | Fenced
    | NotFenced
    | Unavailable
    | Destroyed
    | Swept
    | Crashed

  /** The generation a write is bound to, and how many attempts it has left. */
  datatype Bind = Bind(era: nat, version: nat, left: nat)

  /** One chunk of a staging write: to be put, to be verified after a failed put, or confirmed. */
  datatype Phase = ToPut(left: nat) | ToVerify(left: nat) | Confirmed

  datatype Pc =
    | Stamp(left: nat)
    | CasRead
    | CasGate
    | FenceRead(b: Bind)
    | Staging(b: Bind, phases: seq<Phase>)
    | CommitGate(b: Bind)
    | Put(b: Bind)
    | OracleFloor(b: Bind)
    | OracleRead(b: Bind)
    | Recheck(b: Bind)
    | Reread(b: Bind)
    | Evict(b: Bind)
    | Retire(b: Bind)
    | DestroyLoad
    | TombPut(seen: Control)
    | BumpRead(seen: Control, left: nat)
    | BumpPut(seen: Control, left: nat, from: Option<nat>)
    | TailDelete(seen: Control)
    | SweepFence
    | SweepList
    | SweepFloor(page: set<ChunkAddr>)
    | SweepControl(page: set<ChunkAddr>)
    | SweepDelete(todo: set<ChunkAddr>)
    | Finished(outcome: Outcome)

  datatype Proc = Proc(call: Call, pc: Pc)

  datatype Request =
    | Guarded(write: Write<Body>)
    | PutChunk(addr: ChunkAddr, bytes: Payload)  // If-None-Match
    | DropChunk(addr: ChunkAddr)                 // unconditional

  datatype State = State(
    store: Store<Body>,
    chunks: map<ChunkAddr, Payload>,
    fence: bool,
    retired: bool,                               // the key is below the certified trim floor
    procs: map<nat, Proc>,
    floating: seq<Request>)

  datatype Net = Deliver | Refuse | LoseRequest | LoseReply

  /** What the schedule decides for a step: the request's fate, a chunk ordinal, a LIST page, a candidate. */
  datatype Turn = Turn(net: Net, pick: nat, page: set<ChunkAddr>, addr: ChunkAddr)

  datatype Event =
    | Begin(p: nat, call: Call)
    | Move(p: nat, turn: Turn)
    | Crash(p: nat)
    | Late(k: nat)
    | Drain                                      // no lost request is in flight any more
    | SetFence(on: bool)
    | Trim
    | RawDelete                                  // delete, delete_if_match, delete_objects by anyone

  datatype Reply = Done | Refused | Missing | Lost

  const ATTEMPTS: nat := 8
  const CHUNK_TRIES: nat := 4
  const MIN_CHUNKS: nat := 2
  const MAX_CHUNKS: nat := 65_536

  const INITIAL: State := State(Store(None, None, None, []), map[], false, false, map[], [])

  // ---- Requests -----------------------------------------------------------

  function Land(s: State, r: Request): State {
    match r
    case Guarded(w) => s.(store := Apply(s.store, w))
    case PutChunk(addr, bytes) => if addr in s.chunks then s else s.(chunks := s.chunks[addr := bytes])
    case DropChunk(addr) => s.(chunks := s.chunks - {addr})
  }

  predicate IfMatch(r: Request) {
    r.Guarded? && ((r.write.PutCell? && r.write.over.Some?) || r.write.DeleteCell?
                   || (r.write.PutCounter? && r.write.from.Some?))
  }

  function Answer(s: State, r: Request): Reply {
    match r
    case PutChunk(addr, _) => if addr in s.chunks then Refused else Done
    case DropChunk(_) => Done
    case Guarded(w) =>
      if Applies(s.store, w) then Done
      else if w.DeleteCell? && s.store.cell.None? then Missing else Refused
  }

  function Send(s: State, r: Request, net: Net): (State, Reply) {
    match net
    case Deliver => (Land(s, r), Answer(s, r))
    case Refuse => if IfMatch(r) then (s, Refused) else (Land(s, r), Answer(s, r))
    case LoseRequest => (s.(floating := s.floating + [r]), Lost)
    case LoseReply => (Land(s, r), Lost)
  }

  // ---- What a call publishes --------------------------------------------------

  predicate Writes(call: Call) { call.Create? || call.CompareExchange? }

  function EntriesOf(chunks: seq<Payload>): seq<Entry> {
    seq(|chunks|, i requires 0 <= i < |chunks| => Entry(|chunks[i]|, ChunkSha(chunks[i])))
  }

  /** The control a bound write publishes. */
  function Target(p: nat, call: Call, b: Bind): Control
    requires Writes(call)
  {
    Cell(b.era, b.version,
         match call.content
         case Whole(payload) => Inline(payload)
         case Chunked(chunks, _) => Manifest(Commit(p, b.left), EntriesOf(chunks)))
  }

  function Over(call: Call): Option<Control>
    requires Writes(call)
  {
    if call.Create? then None else Some(call.expected)
  }

  function AddrOf(c: Control, e: Entry): ChunkAddr { ChunkAddr(c.era, c.rank, e.digest) }

  /** The chunk addresses a control refers to; an inline value has none. */
  function References(c: Control): set<ChunkAddr> {
    if c.body.Manifest? then set e <- c.body.entries :: AddrOf(c, e) else {}
  }

  // ---- Steps --------------------------------------------------------------------

  function Goto(s: State, p: nat, pc: Pc): State
    requires p in s.procs
  {
    s.(procs := s.procs[p := s.procs[p].(pc := pc)])
  }

  function Admit(call: Call): Pc {
    match call
    case Create(_) => Stamp(ATTEMPTS)
    case CompareExchange(_, _) => CasRead
    case Destroy => DestroyLoad
    case Sweep => SweepFence
  }

  predicate Fits(proc: Proc) {
    match proc.pc
    case Stamp(_) => proc.call.Create?
    case CasRead => proc.call.CompareExchange?
    case CasGate => proc.call.CompareExchange?
    case FenceRead(_) => Writes(proc.call) && proc.call.content.Chunked?
    case Staging(_, phases) =>
      Writes(proc.call) && proc.call.content.Chunked? && |phases| == |proc.call.content.chunks|
    case CommitGate(_) => proc.call.CompareExchange?
    case Put(_) => Writes(proc.call)
    case OracleFloor(_) => Writes(proc.call) && proc.call.content.Chunked?
    case OracleRead(_) => Writes(proc.call) && proc.call.content.Chunked?
    case Recheck(_) => Writes(proc.call)
    case Reread(_) => proc.call.Create?
    case Evict(_) => proc.call.Create?
    case Retire(_) => proc.call.CompareExchange?
    case Finished(_) => true
    case SweepFence => proc.call.Sweep?
    case SweepList => proc.call.Sweep?
    case SweepFloor(_) => proc.call.Sweep?
    case SweepControl(_) => proc.call.Sweep?
    case SweepDelete(_) => proc.call.Sweep?
    case _ => proc.call.Destroy?
  }

  /** Bound to a generation: stage the chunks of a chunked value, past the fence if it is streamed. */
  function Bound(call: Call, b: Bind): Pc
    requires Writes(call)
  {
    if call.content.Whole? then Put(b)
    else if call.content.streamed then FenceRead(b)
    else StartStaging(call, b)
  }

  function StartStaging(call: Call, b: Bind): Pc
    requires Writes(call) && call.content.Chunked?
  {
    Staging(b, seq(|call.content.chunks|, i => ToPut(CHUNK_TRIES)))
  }

  /** After the last chunk: seal, then publish; a compare-exchange re-reads its gate first. */
  function Staged(call: Call, b: Bind): Pc
    requires Writes(call) && call.content.Chunked?
  {
    if call.content.streamed && !(MIN_CHUNKS <= |call.content.chunks| <= MAX_CHUNKS) then Finished(ChunkCountInvalid)
    else if call.Create? then Put(b) else CommitGate(b)
  }

  /** A stale stamp was withdrawn: whole values try the fresh era, a streamed writer cannot. */
  function Retry(call: Call, b: Bind): Pc
    requires call.Create?
  {
    if call.content.Chunked? && call.content.streamed then Finished(StaleIncarnation)
    else if b.left > 1 then Stamp(b.left - 1) else Finished(Unavailable)
  }

  function WriteAt(p: nat, proc: Proc, turn: Turn): Option<Request>
    requires Fits(proc)
  {
    match proc.pc
    case Staging(b, phases) =>
      if turn.pick < |phases| && phases[turn.pick].ToPut? then
        var bytes := proc.call.content.chunks[turn.pick];
        Some(PutChunk(ChunkAddr(b.era, b.version, ChunkSha(bytes)), bytes))
      else None
    case Put(b) => Some(Guarded(PutCell(p, Target(p, proc.call, b), Over(proc.call))))
    case Evict(b) => Some(Guarded(DeleteCell(Target(p, proc.call, b))))
    case Retire(b) => Some(Guarded(DeleteCell(Target(p, proc.call, b))))
    case TombPut(seen) => Some(Guarded(PutTomb(Tombstone(seen.era, seen.rank))))
    case BumpPut(_, _, from) => Some(Guarded(PutCounter(from)))
    case TailDelete(seen) => Some(Guarded(DeleteCell(seen)))
    case SweepDelete(todo) => if turn.addr in todo then Some(DropChunk(turn.addr)) else None
    case _ => None
  }

  function Resume(proc: Proc, turn: Turn, reply: Reply): Pc
    requires Fits(proc)
  {
    match proc.pc
    // put_chunk
    case Staging(b, phases) =>
      if turn.pick < |phases| && phases[turn.pick].ToPut? then
        Staging(b, phases[turn.pick := if reply.Done? then Confirmed else ToVerify(phases[turn.pick].left)])
      else proc.pc
    // the control PUT; only a manifest has an oracle for a lost reply
    case Put(b) =>
      if reply.Done? then Recheck(b)
      else if reply.Lost? then (if proc.call.content.Chunked? then OracleFloor(b) else Finished(Unavailable))
      else Finished(if proc.call.Create? then AlreadyExists else PreconditionFailed)
    case Evict(b) =>
      if reply.Lost? then Finished(Unavailable)
      else if reply.Refused? then Finished(AlreadyExists) else Retry(proc.call, b)
    case Retire(_) => Finished(if reply.Lost? then Unavailable else StaleIncarnation)
    // destroy
    case TombPut(seen) => if reply.Lost? then Finished(Unavailable) else BumpRead(seen, ATTEMPTS)
    case BumpPut(seen, left, _) =>
      if reply.Done? then TailDelete(seen)
      else if reply.Refused? && left > 1 then BumpRead(seen, left - 1) else Finished(Unavailable)
    case TailDelete(_) =>
      Finished(if reply.Lost? then Unavailable else if reply.Refused? then PreconditionFailed else Destroyed)
    // sweep: a failed delete is left behind
    case SweepDelete(todo) => SweepDelete(todo - {turn.addr})
    case _ => proc.pc
  }

  function Look(s: State, p: nat, proc: Proc, turn: Turn): Pc
    requires Fits(proc)
  {
    if turn.net.LoseRequest? || turn.net.LoseReply? then
      (if proc.pc.SweepControl? then SweepDelete({}) else Finished(Unavailable))  // unresolved: delete nothing
    else
    match proc.pc
    case Stamp(left) => Bound(proc.call, Bind(Era(s.store), 0, left))
    case CasRead => if s.store.cell == Some(proc.call.expected) then CasGate else Finished(PreconditionFailed)
    case CasGate =>
      if Era(s.store) != proc.call.expected.era then Finished(StaleIncarnation)
      else if proc.call.expected.rank >= U64_MAX then Finished(VersionExhausted)
      else Bound(proc.call, Bind(proc.call.expected.era, proc.call.expected.rank + 1, ATTEMPTS))
    case FenceRead(b) => if s.fence then Finished(Fenced) else StartStaging(proc.call, b)
    case Staging(b, phases) =>
      if turn.pick < |phases| then
        (if phases[turn.pick].ToVerify? then Verified(s, proc, turn.pick) else proc.pc)
      else if forall i :: 0 <= i < |phases| ==> phases[i].Confirmed? then Staged(proc.call, b)
      else proc.pc
    case CommitGate(b) => if Era(s.store) == b.era then Put(b) else Finished(StaleIncarnation)
    // adjudicate_manifest_put
    case OracleFloor(b) => if s.retired then Finished(Unavailable) else OracleRead(b)
    case OracleRead(b) => Adjudicate(s, p, proc, b)
    case Recheck(b) =>
      if Era(s.store) == b.era then Finished(Acked(Target(p, proc.call, b)))
      else if proc.call.Create? then Reread(b) else Retire(b)
    case Reread(b) =>
      if s.store.cell.None? then Retry(proc.call, b)
      else if s.store.cell == Some(Target(p, proc.call, b)) then Evict(b) else Finished(AlreadyExists)
    // destroy
    case DestroyLoad => if s.store.cell.None? then Finished(Destroyed) else TombPut(s.store.cell.value)
    case BumpRead(seen, left) =>
      if s.store.counter.Some? && s.store.counter.value >= U64_MAX then Finished(VersionExhausted)
      else BumpPut(seen, left, s.store.counter)
    // sweep: a LIST page may hide or lag; eligibility comes from the exact control read
    case SweepFence => if s.fence then SweepList else Finished(NotFenced)
    case SweepList => if turn.page == {} then Finished(Swept) else SweepFloor(turn.page)
    case SweepFloor(page) => if s.retired then SweepDelete(page) else SweepControl(page)
    case SweepControl(page) =>
      SweepDelete(if s.store.cell.Some? then page - References(s.store.cell.value) else page)
    case SweepDelete(todo) => if todo == {} then SweepList else proc.pc
    case _ => proc.pc
  }

  /** `verify_chunk` after a put that did not say created. */
  function Verified(s: State, proc: Proc, k: nat): Pc
    requires Fits(proc) && proc.pc.Staging? && k < |proc.pc.phases| && proc.pc.phases[k].ToVerify?
  {
    var bytes := proc.call.content.chunks[k];
    var addr := ChunkAddr(proc.pc.b.era, proc.pc.b.version, ChunkSha(bytes));
    var left := proc.pc.phases[k].left;
    if addr !in s.chunks then
      (if left > 1 then Staging(proc.pc.b, proc.pc.phases[k := ToPut(left - 1)]) else Finished(Unavailable))
    else if s.chunks[addr] != bytes then Finished(ChunkIntegrity)
    else Staging(proc.pc.b, proc.pc.phases[k := Confirmed])
  }

  /** The three-row oracle for a manifest PUT whose reply was lost. */
  function Adjudicate(s: State, p: nat, proc: Proc, b: Bind): Pc
    requires Writes(proc.call) && proc.call.content.Chunked?
  {
    match s.store.cell
    case None => Finished(Unavailable)
    case Some(c) =>
      if c.era != b.era || c.rank != b.version then Finished(Unavailable)
      else if c.body.Manifest? && c.body.commit == Commit(p, b.left) then Recheck(b)
      else Finished(LostConflict(Target(p, proc.call, b)))
  }

  function Step(s: State, p: nat, turn: Turn): State
    requires p in s.procs
  {
    var proc := s.procs[p];
    if !Fits(proc) || proc.pc.Finished? then s else
    match WriteAt(p, proc, turn)
    case Some(r) => var (t, reply) := Send(s, r, turn.net); Goto(t, p, Resume(proc, turn, reply))
    case None => Goto(s, p, Look(s, p, proc, turn))
  }

  function Next(s: State, e: Event): State {
    match e
    case Begin(p, call) => if p in s.procs then s else s.(procs := s.procs[p := Proc(call, Admit(call))])
    case Move(p, turn) => if p in s.procs then Step(s, p, turn) else s
    case Crash(p) => if p in s.procs && !s.procs[p].pc.Finished? then Goto(s, p, Finished(Crashed)) else s
    case Late(k) => if k < |s.floating| then Land(s, s.floating[k]) else s
    case Drain => s.(floating := [])
    case SetFence(on) => s.(fence := on)
    case Trim => s.(retired := true)
    case RawDelete => s.(store := s.store.(cell := None))
  }

  function Run(s: State, events: seq<Event>): State
    decreases |events|
  {
    if events == [] then s else Next(Run(s, events[..|events| - 1]), events[|events| - 1])
  }
}
