/**
 Chunk completeness under quiesced collection.  The operator's rule is that no sweep (nor a delete of
 one still in flight) overlaps a writer between its begin and its finish (nor a control PUT still in
 flight).  `ValueRuns.SweepUnderWriterLosesChunks` shows the rule is needed.  Raw deletes are allowed.
*/
module ValueGc {
  import opened Basics
  import opened EraStore
  import opened Values
  import opened ValueProofs
  import opened ValueTheorems

  type Chunks = map<ChunkAddr, Payload>

  ghost predicate SweepInFlight(s: State) {
    || (exists p :: p in s.procs && s.procs[p].call.Sweep? && !s.procs[p].pc.Finished?)
    || (exists k :: 0 <= k < |s.floating| && s.floating[k].DropChunk?)
  }

  predicate Publishes(r: Request) { r.Guarded? && r.write.PutCell? }

  ghost predicate WriteInFlight(s: State) {
    || (exists p :: p in s.procs && Writes(s.procs[p].call) && !s.procs[p].pc.Finished?)
    || (exists k :: 0 <= k < |s.floating| && Publishes(s.floating[k]))
  }

  ghost predicate Quiet(s: State) { !(SweepInFlight(s) && WriteInFlight(s)) }

  /** Every chunk a control names is present, with the recorded length and digest. */
  ghost predicate Covered(chunks: Chunks, c: Control) {
    c.body.Manifest? ==> forall e :: e in c.body.entries ==>
      && AddrOf(c, e) in chunks
      && |chunks[AddrOf(c, e)]| == e.len && ChunkSha(chunks[AddrOf(c, e)]) == e.digest
  }

  ghost predicate Authentic(chunks: Chunks) {
    forall a :: a in chunks ==> a.digest == ChunkSha(chunks[a])
  }

  /** Deleting `todo` cannot hurt the standing control. */
  predicate Spared(s: State, todo: set<ChunkAddr>) {
    s.retired || s.store.cell.None? || todo !! References(s.store.cell.value)
  }

  ghost predicate RequestSafe(s: State, r: Request) {
    match r
    case PutChunk(addr, bytes) => addr.digest == ChunkSha(bytes)
    case DropChunk(addr) => Spared(s, {addr})
    case Guarded(w) => w.PutCell? ==> Covered(s.chunks, w.cell)
  }

  function ChunkOf(b: Bind, bytes: Payload): ChunkAddr { ChunkAddr(b.era, b.version, ChunkSha(bytes)) }

  ghost predicate ProcSafe(s: State, p: nat, proc: Proc) {
    && Fits(proc)
    && match proc.pc
       case Staging(b, phases) =>
         forall i :: 0 <= i < |phases| && phases[i].Confirmed? ==> ChunkOf(b, proc.call.content.chunks[i]) in s.chunks
       case CommitGate(b) => Covered(s.chunks, Target(p, proc.call, b))
       case Put(b) => Covered(s.chunks, Target(p, proc.call, b))
       case SweepDelete(todo) => Spared(s, todo)
       case _ => true
  }

  ghost predicate Safe(s: State) {
    && Authentic(s.chunks)
    && (s.store.cell.Some? && !s.retired ==> Covered(s.chunks, s.store.cell.value))
    && (forall k :: 0 <= k < |s.floating| ==> RequestSafe(s, s.floating[k]))
    && (forall p :: p in s.procs ==> ProcSafe(s, p, s.procs[p]))
  }

  // ---- What keeps a fact safe ---------------------------------------------------

  /** Chunks only appear, and the standing control stays or goes. */
  predicate Eases(a: State, b: State) {
    && (forall addr :: addr in a.chunks ==> addr in b.chunks && b.chunks[addr] == a.chunks[addr])
    && (a.retired ==> b.retired)
    && (b.store.cell.Some? ==> b.store.cell == a.store.cell)
  }

  lemma ProcEases(a: State, b: State, p: nat, proc: Proc)
    requires ProcSafe(a, p, proc) && Eases(a, b)
    ensures ProcSafe(b, p, proc)
  {
    hide Target, References;
  }

  lemma SafeEases(a: State, b: State)
    requires Safe(a) && Eases(a, b) && Authentic(b.chunks)
    requires forall k :: 0 <= k < |b.floating| ==> b.floating[k] in a.floating || RequestSafe(b, b.floating[k])
    requires forall p :: p in b.procs ==> (p in a.procs && b.procs[p] == a.procs[p]) || ProcSafe(b, p, b.procs[p])
    ensures Safe(b)
  {
    hide ProcSafe, References;
    forall p | p in b.procs ensures ProcSafe(b, p, b.procs[p]) {
      if p in a.procs && b.procs[p] == a.procs[p] {
        ProcEases(a, b, p, a.procs[p]);
      }
    }
  }

  /** With no sweep in flight nothing constrains which control stands, so long as it is covered. */
  lemma PublishSafe(s: State, w: Write<Body>)
    requires Safe(s) && !SweepInFlight(s) && w.PutCell? && Covered(s.chunks, w.cell)
    ensures Safe(Land(s, Guarded(w)))
  {
    hide Target, References;
    var t := Land(s, Guarded(w));
    forall p | p in t.procs ensures ProcSafe(t, p, t.procs[p]) {
      assert ProcSafe(s, p, s.procs[p]);
    }
    forall k | 0 <= k < |t.floating| ensures RequestSafe(t, t.floating[k]) {
      assert RequestSafe(s, s.floating[k]);
    }
  }

  /** With no writer in flight nothing but the standing control needs a chunk. */
  lemma DropSafe(s: State, addr: ChunkAddr)
    requires Safe(s) && !WriteInFlight(s) && Spared(s, {addr})
    ensures Safe(Land(s, DropChunk(addr)))
  {
    hide Target;
    var t := Land(s, DropChunk(addr));
    forall p | p in t.procs ensures ProcSafe(t, p, t.procs[p]) {
      assert ProcSafe(s, p, s.procs[p]);
    }
    forall k | 0 <= k < |t.floating| ensures RequestSafe(t, t.floating[k]) {
      assert RequestSafe(s, s.floating[k]);
    }
    if s.store.cell.Some? && !s.retired && s.store.cell.value.body.Manifest? {
      var c := s.store.cell.value;
      assert forall e :: e in c.body.entries ==> AddrOf(c, e) in References(c);
    }
  }

  ghost predicate Licensed(s: State, r: Request) {
    && RequestSafe(s, r)
    && (r.DropChunk? ==> SweepInFlight(s))
    && (Publishes(r) ==> WriteInFlight(s))
  }

  lemma LandSafe(s: State, r: Request)
    requires Safe(s) && Quiet(s) && Licensed(s, r)
    ensures Safe(Land(s, r))
  {
    hide SweepInFlight, WriteInFlight, ProcSafe, Covered, References;
    if Publishes(r) {
      PublishSafe(s, r.write);
    } else if r.DropChunk? {
      DropSafe(s, r.addr);
    } else {
      SafeEases(s, Land(s, r));
    }
  }

  lemma SendSafe(s: State, r: Request, net: Net)
    requires Safe(s) && Quiet(s) && Licensed(s, r)
    ensures Safe(Send(s, r, net).0)
  {
    hide SweepInFlight, WriteInFlight, ProcSafe, Covered, References;
    LandSafe(s, r);
    if net.LoseRequest? {
      var t := s.(floating := s.floating + [r]);
      assert Safe(s.(floating := [])) by { SafeEases(s, s.(floating := [])); }
      SafeEases(s, t);
    }
  }

  lemma GotoSafe(s: State, p: nat, pc: Pc)
    requires Safe(s) && p in s.procs && ProcSafe(s, p, s.procs[p].(pc := pc))
    ensures Safe(Goto(s, p, pc))
  {
    hide ProcSafe, Covered, References;
    var t := Goto(s, p, pc);
    ProcEases(s, t, p, t.procs[p]);
    SafeEases(s, t);
  }

  // ---- Steps ------------------------------------------------------------------------

  lemma WriteAtLicensed(s: State, p: nat, turn: Turn)
    requires p in s.procs && Fits(s.procs[p]) && !s.procs[p].pc.Finished?
    requires ProcSafe(s, p, s.procs[p]) && WriteAt(p, s.procs[p], turn).Some?
    ensures Licensed(s, WriteAt(p, s.procs[p], turn).value)
  {
    hide Covered, References, Target;
  }

  lemma ResumeSafe(s: State, p: nat, proc: Proc, turn: Turn)
    requires Fits(proc) && WriteAt(p, proc, turn).Some?
    requires var t := Send(s, WriteAt(p, proc, turn).value, turn.net).0; ProcSafe(t, p, proc)
    ensures var (t, reply) := Send(s, WriteAt(p, proc, turn).value, turn.net);
      ProcSafe(t, p, proc.(pc := Resume(proc, turn, reply)))
  {
    hide Covered, References, Target, Apply;
  }

  /** A target whose every chunk is confirmed is covered. */
  lemma ConfirmedIsCovered(s: State, p: nat, call: Call, b: Bind)
    requires Authentic(s.chunks) && Writes(call)
    requires call.content.Chunked? ==>
      forall i :: 0 <= i < |call.content.chunks| ==> ChunkOf(b, call.content.chunks[i]) in s.chunks
    ensures Covered(s.chunks, Target(p, call, b))
  {
    if call.content.Chunked? {
      var c := Target(p, call, b);
      forall e | e in c.body.entries
        ensures AddrOf(c, e) in s.chunks && |s.chunks[AddrOf(c, e)]| == e.len &&
          ChunkSha(s.chunks[AddrOf(c, e)]) == e.digest
      {
        var i :| 0 <= i < |c.body.entries| && c.body.entries[i] == e;
        assert AddrOf(c, e) == ChunkOf(b, call.content.chunks[i]);
      }
    }
  }

  lemma LookWriterSafe(s: State, p: nat, proc: Proc, turn: Turn)
    requires Authentic(s.chunks) && ProcSafe(s, p, proc) && Fits(proc) && Writes(proc.call)
    requires WriteAt(p, proc, turn).None?
    ensures ProcSafe(s, p, proc.(pc := Look(s, p, proc, turn)))
  {
    hide Covered, Target, References, Adjudicate;
    match proc.pc
    case Staging(b, phases) =>
      if forall i :: 0 <= i < |phases| ==> phases[i].Confirmed? {
        ConfirmedIsCovered(s, p, proc.call, b);
      }
    case Stamp(left) => InlineIsCovered(s, p, proc.call, Bind(Era(s.store), 0, left));
    case CasGate =>
      InlineIsCovered(s, p, proc.call, Bind(proc.call.expected.era, proc.call.expected.rank + 1, ATTEMPTS));
    case OracleRead(b) => AdjudicateSettles(s, p, proc, b);
    case _ =>
  }

  lemma AdjudicateSettles(s: State, p: nat, proc: Proc, b: Bind)
    requires Writes(proc.call) && proc.call.content.Chunked?
    ensures var pc := Adjudicate(s, p, proc, b); pc.Finished? || pc.Recheck?
  {
  }

  lemma InlineIsCovered(s: State, p: nat, call: Call, b: Bind)
    requires Writes(call)
    ensures call.content.Whole? ==> Covered(s.chunks, Target(p, call, b))
  {
  }

  lemma LookSweepSafe(s: State, p: nat, proc: Proc, turn: Turn)
    requires ProcSafe(s, p, proc) && Fits(proc) && !Writes(proc.call)
    ensures ProcSafe(s, p, proc.(pc := Look(s, p, proc, turn)))
  {
    hide Covered, Adjudicate, References;
  }

  lemma StepSafe(s: State, p: nat, turn: Turn)
    requires Safe(s) && Quiet(s) && p in s.procs
    ensures Safe(Step(s, p, turn))
  {
    var proc := s.procs[p];
    assert ProcSafe(s, p, proc) && Authentic(s.chunks);
    hide Safe, Quiet, ProcSafe, Licensed;
    if Fits(proc) && !proc.pc.Finished? {
      match WriteAt(p, proc, turn)
      case Some(r) =>
        var t := Send(s, r, turn.net).0;
        WriteAtLicensed(s, p, turn);
        SendSafe(s, r, turn.net);
        SentProcSafe(t, p);
        SendLeavesProcs(s, r, turn.net);
        ResumeSafe(s, p, proc, turn);
        GotoSafe(t, p, Resume(proc, turn, Send(s, r, turn.net).1));
      case None =>
        if Writes(proc.call) {
          LookWriterSafe(s, p, proc, turn);
        } else {
          LookSweepSafe(s, p, proc, turn);
        }
        GotoSafe(s, p, Look(s, p, proc, turn));
    }
  }

  lemma SentProcSafe(t: State, p: nat)
    requires Safe(t)
    ensures p in t.procs ==> ProcSafe(t, p, t.procs[p])
  {
  }

  lemma SendLeavesProcs(s: State, r: Request, net: Net)
    ensures Send(s, r, net).0.procs == s.procs
  {
  }

  lemma NextSafe(s: State, e: Event)
    requires Safe(s) && Quiet(s)
    ensures Safe(Next(s, e))
  {
    hide SweepInFlight, WriteInFlight, Step, Covered, References;
    match e
    case Late(k) =>
      if k < |s.floating| {
        FloatingLicensed(s, k);
        LandSafe(s, s.floating[k]);
      }
    case Move(p, turn) => if p in s.procs { StepSafe(s, p, turn); }
    case Crash(p) => if p in s.procs && !s.procs[p].pc.Finished? { GotoSafe(s, p, Finished(Crashed)); }
    case _ =>
      hide ProcSafe;
      BeginSafe(s, e);
      SafeEases(s, Next(s, e));
  }

  lemma FloatingLicensed(s: State, k: nat)
    requires Safe(s) && k < |s.floating|
    ensures Licensed(s, s.floating[k])
  {
  }

  lemma BeginSafe(s: State, e: Event)
    ensures e.Begin? && e.p !in s.procs ==> ProcSafe(Next(s, e), e.p, Proc(e.call, Admit(e.call)))
  {
  }

  // ---- Runs --------------------------------------------------------------------------

  /** The operator's rule, at every instant of the run. */
  ghost predicate Quiesced(events: seq<Event>) {
    forall i :: 0 <= i < |events| ==> Quiet(Run(INITIAL, events[..i]))
  }

  lemma {:induction false} RunSafe(events: seq<Event>)
    requires Quiesced(events)
    ensures Safe(Run(INITIAL, events))
    decreases |events|
  {
    hide Quiet, Next;
    if events != [] {
      var init := events[..|events| - 1];
      assert forall i :: 0 <= i < |init| ==> init[..i] == events[..i];
      RunSafe(init);
      NextSafe(Run(INITIAL, init), events[|events| - 1]);
    }
  }

  /**
   In every state of a quiesced run, a control standing at a key above the trim floor names only
   chunks that are present with the recorded length and digest.
  */
  lemma ManifestsComplete(events: seq<Event>, i: nat)
    requires Quiesced(events) && i <= |events|
    ensures var s := Run(INITIAL, events[..i]);
      s.store.cell.Some? && !s.retired ==> Covered(s.chunks, s.store.cell.value)
  {
    hide Quiet;
    assert forall j :: 0 <= j < i ==> events[..i][..j] == events[..j];
    RunSafe(events[..i]);
  }

  /**
   A writer of a quiesced run that is past staging finds every one of its chunks stored as it cut them;
   while it stages, those it has confirmed.
  */
  lemma StagedChunksStand(events: seq<Event>, i: nat, p: nat)
    requires Quiesced(events) && i <= |events| && p in Run(INITIAL, events[..i]).procs
    ensures var s := Run(INITIAL, events[..i]); WriterKeeps(s.chunks, s.procs[p])
  {
    hide Quiet;
    assert forall j :: 0 <= j < i ==> events[..i][..j] == events[..j];
    RunSafe(events[..i]);
    hide Quiesced, Run;
    var s := Run(INITIAL, events[..i]);
    SentProcSafe(s, p);
    var proc := s.procs[p];
    if proc.pc.Put? || proc.pc.CommitGate? { CoveredIsKept(s, p, proc.call, proc.pc.b); }
  }

  ghost predicate WriterKeeps(chunks: Chunks, proc: Proc) {
    && Fits(proc)
    && match proc.pc
       case Staging(b, phases) =>
         forall k :: 0 <= k < |phases| && phases[k].Confirmed? ==> Kept(chunks, b, proc.call.content.chunks[k])
       case CommitGate(b) => KeepsAll(chunks, proc.call, b)
       case Put(b) => KeepsAll(chunks, proc.call, b)
       case _ => true
  }

  ghost predicate KeepsAll(chunks: Chunks, call: Call, b: Bind)
    requires Writes(call)
  {
    call.content.Chunked? ==> forall chunk :: chunk in call.content.chunks ==> Kept(chunks, b, chunk)
  }

  ghost predicate Kept(chunks: Chunks, b: Bind, chunk: Payload) {
    ChunkOf(b, chunk) in chunks && chunks[ChunkOf(b, chunk)] == chunk
  }

  lemma CoveredIsKept(s: State, p: nat, call: Call, b: Bind)
    requires Writes(call) && Covered(s.chunks, Target(p, call, b))
    ensures KeepsAll(s.chunks, call, b)
  {
    if call.content.Chunked? {
      var c := Target(p, call, b);
      forall chunk | chunk in call.content.chunks ensures Kept(s.chunks, b, chunk) {
        var k :| 0 <= k < |call.content.chunks| && call.content.chunks[k] == chunk;
        assert c.body.entries[k] in c.body.entries;
      }
    }
  }

  /** What a whole read collects: every named chunk, in order. */
  function Collected(chunks: Chunks, c: Control): seq<Payload>
    requires c.body.Manifest? && forall e :: e in c.body.entries ==> AddrOf(c, e) in chunks
  {
    seq(|c.body.entries|, i requires 0 <= i < |c.body.entries| => chunks[AddrOf(c, c.body.entries[i])])
  }

  /** Reading a standing chunked value yields exactly the chunks that its writer was given. */
  lemma StandingValueReadsBack(events: seq<Event>) returns (p: nat)
    requires Quiesced(events) && Disciplined(events)
    requires var s := End(events); s.store.cell.Some? && s.store.cell.value.body.Manifest? && !s.retired
    ensures var s := End(events); var c := s.store.cell.value;
      && Covered(s.chunks, c)
      && p in s.procs && Made(p, s.procs[p].call, c) && Collected(s.chunks, c) == s.procs[p].call.content.chunks
  {
    hide ProcOk, EffectOk, Quiet;
    var s := End(events);
    var c := s.store.cell.value;
    ManifestsComplete(events, |events|);
    ReachInv(events, |events|);
    StandingControl(s);
    p := s.store.log[|s.store.log| - 1].who;
    var chunks := s.procs[p].call.content.chunks;
    forall i | 0 <= i < |chunks| ensures s.chunks[AddrOf(c, c.body.entries[i])] == chunks[i] {
      assert c.body.entries[i] in c.body.entries;
    }
  }
}
