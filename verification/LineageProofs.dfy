/** The inductive invariant of the lineage protocol, kept by every event of every schedule. */
module LineageProofs {
  import opened Basics
  import opened EraStore
  import opened Records
  import opened Lineage

  type Log = seq<Effect<HeadBody>>

  // ---- Facts that growth of the store keeps --------------------------------

  /** The head names a whole, stored chain of generation + 1 records. */
  ghost predicate HeadOk(lineage: nat, objects: Objects, h: Head) {
    var c := Chain(lineage, h.body.digest);
    && h.body.lineage == lineage
    && c.Some? && |c.value| == h.rank + 1
    && Terminal(c.value).prior == h.body.prior
    && Stored(objects, h.body.digest)
  }

  /** The records of a head, oldest first. */
  function HeadChain(lineage: nat, h: Head): seq<Record> {
    var c := Chain(lineage, h.body.digest);
    if c.Some? then c.value else []
  }

  ghost predicate Links(lineage: nat, over: Option<Head>, h: Head) {
    over.Some? ==> HeadChain(lineage, over.value) < HeadChain(lineage, h)
  }

  ghost predicate LandedBy(log: Log, p: nat, h: Head) {
    exists j :: 0 <= j < |log| && log[j].Wrote? && log[j].who == p && log[j].cell == h
  }

  /** Call `p` wrote `h` at an instant when the counter named the era of `h`. */
  ghost predicate LandedOpen(log: Log, p: nat, h: Head) {
    exists j :: 0 <= j < |log| && OpenAt(log, j) && log[j].who == p && log[j].cell == h
  }

  ghost predicate Published(objects: Objects, records: seq<Record>, n: nat)
    requires n <= |records|
  {
    forall i :: 0 <= i < n ==>
      DigestOf(records[i]) in objects && objects[DigestOf(records[i])] == RecordBlob(records[i])
  }

  /** No empty batch has been submitted: what makes heads extend each other. */
  ghost predicate Proper(s: State) {
    forall p :: p in s.procs ==> !EmptyBatch(s.procs[p].call)
  }

  /** A batch admitted against what stands below it. */
  ghost predicate BatchFact(s: State, call: Call) {
    match call
    case Genesis(records) => BatchOk(s.lineage, records, 0, None)
    case Successor(records, expected, _) =>
      && SuccessorOk(s.lineage, call)
      && (Proper(s) ==> HeadOk(s.lineage, s.objects, expected))
      && expected.era <= Era(s.store)
    case _ => false
  }

  ghost predicate Ready(s: State, call: Call) {
    BatchFact(s, call) && Published(s.objects, call.records, |call.records|)
  }

  ghost predicate RequestOk(s: State, r: Request) {
    r.Guarded? ==>
      && WriteOk(s.store, r.write)
      && (r.write.PutCell? ==>
            && r.write.who in s.procs
            && (Proper(s) ==>
                  HeadOk(s.lineage, s.objects, r.write.cell) && Links(s.lineage, r.write.over, r.write.cell)))
  }

  ghost predicate EffectOk(s: State, e: Effect<HeadBody>) {
    e.Wrote? ==>
      && e.who in s.procs
      && (Proper(s) ==> HeadOk(s.lineage, s.objects, e.cell) && Links(s.lineage, e.over, e.cell))
  }

  /** The head is the one that this call was asked to publish, over what it was admitted against. */
  ghost predicate Made(s: State, call: Call, h: Head) {
    && Ready(s, call) && h == HeadFor(s.lineage, call, h.era)
    && (call.Successor? ==> h.era == call.expected.era)
  }

  ghost predicate OutcomeOk(s: State, p: nat, call: Call, o: Outcome) {
    match o
    case Acked(h) => LandedOpen(s.store.log, p, h) && Made(s, call, h)
    case SeenPresent(h) => exists j :: 0 <= j < |s.store.log| && s.store.log[j].Wrote? && s.store.log[j].cell == h
    case SeenDestroyed(t, _) => s.store.tomb == Some(t)
    case SeenAbsent(effects) => effects == 0
    case _ => true
  }

  ghost predicate ProcOk(s: State, p: nat, proc: Proc) {
    && Fits(proc)
    && match proc.pc
       case Publishing(k) => BatchFact(s, proc.call) && Published(s.objects, proc.call.records, k)
       case ReadingBack(k) => BatchFact(s, proc.call) && Published(s.objects, proc.call.records, k)
       case StampRead(_) => Ready(s, proc.call)
       case HeadPut(_, era) => Ready(s, proc.call) && era <= Era(s.store)
       case HeadRecheck(_, era) =>
         Ready(s, proc.call) && LandedBy(s.store.log, p, HeadFor(s.lineage, proc.call, era))
       case HeadEvict(_, era) => Ready(s, proc.call) && era < Era(s.store)
       case CasPut => Ready(s, proc.call)
       case CasRecheck =>
         Ready(s, proc.call) && LandedBy(s.store.log, p, HeadFor(s.lineage, proc.call, proc.call.expected.era))
       case CasRetire => proc.call.expected.era < Era(s.store)
       case TombPut(seen) => s.store.log != [] && seen.era <= Era(s.store)
       case BumpRead(seen, _) => s.store.tomb.Some? && seen.era <= Era(s.store)
       case BumpPut(seen, _, _) => s.store.tomb.Some? && seen.era <= Era(s.store)
       case TailDelete(seen) => seen.era < Era(s.store)
       case StateTomb(n) => n <= |s.store.log| && (n > 0 ==> s.store.log[n - 1].Erased?)
       case Finished(o) => OutcomeOk(s, p, proc.call, o)
       case _ => true
  }

  ghost predicate Inv(s: State) {
    && StoreInv(s.store)
    && (forall d :: d in s.objects ==> s.objects[d] == d.blob)
    && (forall k :: 0 <= k < |s.store.log| ==> EffectOk(s, s.store.log[k]))
    && (forall k :: 0 <= k < |s.floating| ==> RequestOk(s, s.floating[k]))
    && (forall p :: p in s.procs ==> ProcOk(s, p, s.procs[p]))
  }

  ghost predicate Advances(a: State, b: State) {
    && a.lineage == b.lineage && a.successors == b.successors
    && Grows(a.store, b.store) && Includes(a.objects, b.objects)
    && forall p :: p in a.procs ==> p in b.procs && b.procs[p].call == a.procs[p].call
  }

  lemma ProperBefore(a: State, b: State)
    requires Advances(a, b)
    ensures Proper(b) ==> Proper(a)
  {
  }

  // ---- Stability ------------------------------------------------------------

  lemma HeadOkGrows(a: State, b: State, h: Head)
    requires HeadOk(a.lineage, a.objects, h) && Advances(a, b)
    ensures HeadOk(b.lineage, b.objects, h)
  {
    StoredGrows(a.objects, b.objects, h.body.digest);
  }

  lemma RequestOkGrows(a: State, b: State, r: Request)
    requires RequestOk(a, r) && Advances(a, b)
    ensures RequestOk(b, r)
  {
    ProperBefore(a, b);
    if r.Guarded? && r.write.PutCell? && Proper(b) {
      HeadOkGrows(a, b, r.write.cell);
    }
  }

  lemma EffectOkGrows(a: State, b: State, e: Effect<HeadBody>)
    requires EffectOk(a, e) && Advances(a, b)
    ensures EffectOk(b, e)
  {
    ProperBefore(a, b);
    if e.Wrote? && Proper(b) {
      HeadOkGrows(a, b, e.cell);
    }
  }

  lemma LandedGrows(a: Log, b: Log, p: nat, h: Head)
    requires a <= b
    ensures LandedBy(a, p, h) ==> LandedBy(b, p, h)
    ensures LandedOpen(a, p, h) ==> LandedOpen(b, p, h)
  {
    assert forall j :: 0 <= j < |a| ==> b[j] == a[j];
    if LandedOpen(a, p, h) {
      var j :| 0 <= j < |a| && OpenAt(a, j) && a[j].who == p && a[j].cell == h;
      assert OpenAt(b, j);
    }
  }

  lemma BatchFactGrows(a: State, b: State, call: Call)
    requires BatchFact(a, call) && Advances(a, b)
    ensures BatchFact(b, call)
  {
    ProperBefore(a, b);
    if call.Successor? && Proper(b) {
      HeadOkGrows(a, b, call.expected);
    }
  }

  lemma OutcomeOkGrows(a: State, b: State, p: nat, call: Call, o: Outcome)
    requires OutcomeOk(a, p, call, o) && Advances(a, b)
    ensures OutcomeOk(b, p, call, o)
  {
    if o.Acked? {
      BatchFactGrows(a, b, call);
      LandedGrows(a.store.log, b.store.log, p, o.head);
    } else if o.SeenPresent? {
      var j :| 0 <= j < |a.store.log| && a.store.log[j].Wrote? && a.store.log[j].cell == o.head;
      assert b.store.log[j] == a.store.log[j];
    }
  }

  lemma ProcOkGrows(a: State, b: State, p: nat, proc: Proc)
    requires ProcOk(a, p, proc) && Advances(a, b)
    ensures ProcOk(b, p, proc)
  {
    if BatchFact(a, proc.call) {
      BatchFactGrows(a, b, proc.call);
    }
    match proc.pc
    case HeadRecheck(_, era) => LandedGrows(a.store.log, b.store.log, p, HeadFor(a.lineage, proc.call, era));
    case CasRecheck =>
      LandedGrows(a.store.log, b.store.log, p, HeadFor(a.lineage, proc.call, proc.call.expected.era));
    case Finished(o) => OutcomeOkGrows(a, b, p, proc.call, o);
    case _ =>
  }

  lemma InvGrows(a: State, b: State)
    requires Inv(a) && Advances(a, b)
    requires StoreInv(b.store) && (forall d :: d in b.objects ==> b.objects[d] == d.blob)
    requires b.floating == a.floating && b.procs == a.procs
    requires forall k :: |a.store.log| <= k < |b.store.log| ==> EffectOk(b, b.store.log[k])
    ensures Inv(b)
  {
    forall k | 0 <= k < |b.store.log| ensures EffectOk(b, b.store.log[k]) {
      if k < |a.store.log| {
        EffectOkGrows(a, b, a.store.log[k]);
      }
    }
    forall k | 0 <= k < |b.floating| ensures RequestOk(b, b.floating[k]) {
      RequestOkGrows(a, b, a.floating[k]);
    }
    forall p | p in b.procs ensures ProcOk(b, p, b.procs[p]) {
      ProcOkGrows(a, b, p, a.procs[p]);
    }
  }

  // ---- Requests and transitions ----------------------------------------------

  lemma LandKeeps(s: State, r: Request)
    requires Inv(s) && RequestOk(s, r)
    ensures Inv(Land(s, r)) && Advances(s, Land(s, r))
  {
    hide HeadOk;
    var t := Land(s, r);
    if r.Guarded? {
      ApplyKeeps(s.store, r.write);
    }
    InvGrows(s, t);
  }

  lemma FloatKeeps(s: State, r: Request)
    requires Inv(s) && RequestOk(s, r)
    ensures Inv(s.(floating := s.floating + [r])) && Advances(s, s.(floating := s.floating + [r]))
  {
    hide HeadOk, ProcOk;
    var t := s.(floating := s.floating + [r]);
    forall k | 0 <= k < |t.store.log| ensures EffectOk(t, t.store.log[k]) {
      EffectOkGrows(s, t, s.store.log[k]);
    }
    forall k | 0 <= k < |t.floating| ensures RequestOk(t, t.floating[k]) {
      RequestOkGrows(s, t, t.floating[k]);
    }
    forall p | p in t.procs ensures ProcOk(t, p, t.procs[p]) {
      ProcOkGrows(s, t, p, s.procs[p]);
    }
  }

  lemma SendKeeps(s: State, r: Request, net: Net)
    requires Inv(s) && RequestOk(s, r)
    ensures var t := Send(s, r, net).0; Inv(t) && Advances(s, t) && t.procs == s.procs
  {
    hide Inv, RequestOk;
    LandKeeps(s, r);
    FloatKeeps(s, r);
  }

  lemma GotoKeeps(s: State, p: nat, pc: Pc)
    requires Inv(s) && p in s.procs && ProcOk(s, p, s.procs[p].(pc := pc))
    ensures Inv(Goto(s, p, pc)) && Advances(s, Goto(s, p, pc))
  {
    hide HeadOk, ProcOk;
    var t := Goto(s, p, pc);
    forall k | 0 <= k < |t.store.log| ensures EffectOk(t, t.store.log[k]) {
      EffectOkGrows(s, t, s.store.log[k]);
    }
    forall k | 0 <= k < |t.floating| ensures RequestOk(t, t.floating[k]) {
      RequestOkGrows(s, t, t.floating[k]);
    }
    forall q | q in t.procs ensures ProcOk(t, q, t.procs[q]) {
      ProcOkGrows(s, t, q, if q == p then s.procs[p].(pc := pc) else s.procs[q]);
    }
  }

  /** What the caller may conclude from a reply other than Lost. */
  ghost predicate ReplyFact(s: State, t: State, r: Request, reply: Reply) {
    r.Guarded? && !reply.Lost? ==>
      match r.write
      case PutCell(who, cell, _) => reply.Done? ==> LandedBy(t.store.log, who, cell)
      case PutTomb(_) => t.store.tomb.Some?
      case PutCounter(_) => reply.Done? ==> Era(s.store) < Era(t.store)
      case DeleteCell(_) => true
  }

  lemma SendReplyFact(s: State, r: Request, net: Net)
    ensures var (t, reply) := Send(s, r, net); ReplyFact(s, t, r, reply)
  {
    var (t, reply) := Send(s, r, net);
    if r.Guarded? && r.write.PutCell? && reply.Done? {
      assert t.store.log[|s.store.log|] == Wrote(r.write.who, r.write.cell, r.write.over, Era(s.store));
    }
  }

  // ---- Appends ----------------------------------------------------------------

  lemma {:induction false} StoredBatch(objects: Objects, records: seq<Record>, lineage: nat, first: nat,
      prior: Option<Position>)
    requires records != [] && Linked(lineage, records, first, prior)
    requires Published(objects, records, |records|)
    requires prior.Some? ==> Stored(objects, prior.value.digest)
    ensures Stored(objects, DigestOf(Terminal(records)))
    decreases |records|
  {
    var n := |records| - 1;
    assert LinkedAt(lineage, records, first, prior, n);
    if n > 0 {
      LinkedPrefix(lineage, records, first, prior, n);
      StoredBatch(objects, records[..n], lineage, first, prior);
    }
  }

  /** What an admitted batch is appended to. */
  ghost function Below(s: State, call: Call): seq<Record> {
    if call.Successor? then HeadChain(s.lineage, call.expected) else []
  }

  /** An admitted batch's head names exactly what stood below it, followed by the batch. */
  lemma ReadyChain(s: State, call: Call, era: nat)
    requires Ready(s, call) && Proper(s) && Appends(call)
    ensures HeadChain(s.lineage, HeadFor(s.lineage, call, era)) == Below(s, call) + call.records
  {
    BatchChain(s.lineage, call, Below(s, call));
  }

  /** The records of an admitted batch, on top of the chain it was admitted against. */
  lemma BatchChain(lineage: nat, call: Call, below: seq<Record>)
    requires Appends(call)
    requires call.Genesis? ==> below == [] && BatchOk(lineage, call.records, 0, None)
    requires call.Successor? ==>
      && SuccessorOk(lineage, call) && |below| == call.expected.rank + 1
      && Chain(lineage, call.expected.body.digest) == Some(below)
    ensures Chain(lineage, DigestOf(Terminal(call.records))) == Some(below + call.records)
    ensures Linked(lineage, call.records, |below|, if below == [] then None else Some(PositionOf(below[|below| - 1])))
  {
    ChainOfBatch(lineage, below, call.records);
  }

  /** A published, admitted batch yields a head over a complete chain that extends the one below. */
  lemma ReadyHead(s: State, call: Call, era: nat)
    requires Ready(s, call) && Proper(s) && Appends(call)
    ensures HeadOk(s.lineage, s.objects, HeadFor(s.lineage, call, era))
    ensures call.Successor? ==> Links(s.lineage, Some(call.expected), HeadFor(s.lineage, call, era))
  {
    var below := Below(s, call);
    var prior := if below == [] then None else Some(PositionOf(below[|below| - 1]));
    BatchChain(s.lineage, call, below);
    StoredBatch(s.objects, call.records, s.lineage, |below|, prior);
    assert LinkedAt(s.lineage, call.records, |below|, prior, |call.records| - 1);
  }

  /** No successor, not even an empty one, moves the generation back. */
  lemma RankRises(s: State, call: Call, era: nat)
    requires Ready(s, call) && call.Successor?
    ensures call.expected.rank <= HeadFor(s.lineage, call, era).rank
  {
    if call.records != [] {
      assert LinkedAt(s.lineage, call.records, call.expected.rank + 1, Some(PositionOfHead(call.expected)),
        |call.records| - 1);
    }
  }

  /**
   The re-check after a landing: reading the stamped era proves that the write landed while that
   era was open; reading any other proves that the era is closed.
  */
  lemma RecheckLook(s: State, p: nat, h: Head)
    requires StoreInv(s.store) && LandedBy(s.store.log, p, h)
    ensures Era(s.store) == h.era ==> LandedOpen(s.store.log, p, h)
    ensures Era(s.store) != h.era ==> h.era < Era(s.store)
  {
    var log := s.store.log;
    var j :| 0 <= j < |log| && log[j].Wrote? && log[j].who == p && log[j].cell == h;
    assert LegalAt(log, j);
    LaterAt(log, j, |log| - 1);
    assert Era(s.store) == h.era ==> OpenAt(log, j);
  }

  lemma StandingHeadOk(s: State)
    requires Inv(s)
    ensures s.store.cell.Some? ==>
      && s.store.cell.value.era <= Era(s.store)
      && (Proper(s) ==> HeadOk(s.lineage, s.objects, s.store.cell.value))
      && s.store.log[|s.store.log| - 1].Wrote?
      && s.store.log[|s.store.log| - 1].cell == s.store.cell.value
    ensures s.store.cell.None? && s.store.log != [] ==> s.store.log[|s.store.log| - 1].Erased?
  {
    hide HeadOk, ProcOk;
    if s.store.log != [] {
      var last := |s.store.log| - 1;
      assert LegalAt(s.store.log, last);
      assert EffectOk(s, s.store.log[last]);
    }
  }

  // ---- One step of one call -----------------------------------------------------

  lemma WriteAtOk(s: State, p: nat, proc: Proc)
    requires p in s.procs && s.procs[p].call == proc.call && ProcOk(s, p, proc) && WriteAt(s.lineage, p, proc).Some?
    ensures RequestOk(s, WriteAt(s.lineage, p, proc).value)
  {
    hide HeadOk, BatchPasses, Linked;
    if proc.pc.HeadPut? || proc.pc.CasPut? {
      if Proper(s) { ReadyHead(s, proc.call, Target(s.lineage, proc).era); }
      if proc.pc.CasPut? { RankRises(s, proc.call, proc.call.expected.era); }
    }
  }

  lemma ResumeOk(s: State, t: State, p: nat, proc: Proc, reply: Reply)
    requires ProcOk(s, p, proc) && Advances(s, t) && WriteAt(s.lineage, p, proc).Some?
    requires ReplyFact(s, t, WriteAt(s.lineage, p, proc).value, reply)
    ensures ProcOk(t, p, proc.(pc := Resume(proc, reply)))
  {
    hide HeadOk;
    ProcOkGrows(s, t, p, proc);
  }

  lemma LookOk(s: State, p: nat, proc: Proc, net: Net)
    requires Inv(s) && ProcOk(s, p, proc) && WriteAt(s.lineage, p, proc).None? && !proc.pc.Finished?
    ensures ProcOk(s, p, proc.(pc := Look(s, proc, net)))
  {
    hide Inv, ProcOk, Look, WriteAt;
    InvStore(s);
    if proc.pc.HeadCompare? || proc.pc.DestroyLoad? || proc.pc.StateHead? {
      StandingHeadOk(s);
      LookHead(s, p, proc, net);
    } else if proc.pc.StateTomb? {
      if s.store.tomb.None? { NoWitnessNoErasure(s.store); }
      LookTomb(s, p, proc, net);
    } else {
      LookOn(s, p, proc, net);
    }
  }

  /** The reads of the head. */
  lemma LookHead(s: State, p: nat, proc: Proc, net: Net)
    requires ProcOk(s, p, proc) && (proc.pc.HeadCompare? || proc.pc.DestroyLoad? || proc.pc.StateHead?)
    requires s.store.cell.Some? ==> s.store.cell.value.era <= Era(s.store) && s.store.log != []
    requires s.store.cell.Some? && Proper(s) ==> HeadOk(s.lineage, s.objects, s.store.cell.value)
    requires s.store.cell.Some? ==> s.store.log[|s.store.log| - 1].Wrote?
    requires s.store.cell.Some? ==> s.store.log[|s.store.log| - 1].cell == s.store.cell.value
    requires s.store.cell.None? && s.store.log != [] ==> s.store.log[|s.store.log| - 1].Erased?
    ensures ProcOk(s, p, proc.(pc := Look(s, proc, net)))
  {
    hide HeadOk, LandedBy, LandedOpen, BatchPasses, Linked;
  }

  lemma LookTomb(s: State, p: nat, proc: Proc, net: Net)
    requires ProcOk(s, p, proc) && proc.pc.StateTomb?
    requires s.store.tomb.None? ==> forall k :: 0 <= k < |s.store.log| ==> s.store.log[k].Wrote?
    requires s.store.tomb.Some? ==> s.store.log != []
    ensures ProcOk(s, p, proc.(pc := Look(s, proc, net)))
  {
    hide LandedBy, LandedOpen, BatchPasses, Linked, Ready, BatchFact;
  }

  /** The readbacks and the counter reads. */
  lemma LookOn(s: State, p: nat, proc: Proc, net: Net)
    requires Inv(s) && ProcOk(s, p, proc) && WriteAt(s.lineage, p, proc).None? && !proc.pc.Finished?
    requires !proc.pc.HeadCompare? && !proc.pc.DestroyLoad? && !proc.pc.StateHead? && !proc.pc.StateTomb?
    ensures ProcOk(s, p, proc.(pc := Look(s, proc, net)))
  {
    hide Inv, HeadOk, Linked, LandedBy, LandedOpen, BatchPasses;
    InvStore(s);
    if proc.pc.HeadRecheck? || proc.pc.CasRecheck? {
      RecheckLook(s, p, Target(s.lineage, proc));
    }
  }

  lemma InvStore(s: State)
    requires Inv(s)
    ensures StoreInv(s.store) && forall d :: d in s.objects ==> s.objects[d] == d.blob
  {
  }

  lemma OwnFact(s: State, p: nat)
    requires Inv(s) && p in s.procs
    ensures ProcOk(s, p, s.procs[p])
  {
  }

  lemma StepKeeps(s: State, p: nat, net: Net)
    requires Inv(s) && p in s.procs
    ensures Inv(Step(s, p, net)) && Advances(s, Step(s, p, net))
  {
    var proc := s.procs[p];
    OwnFact(s, p);
    hide Inv, ProcOk, RequestOk, ReplyFact;
    if Fits(proc) && !proc.pc.Finished? {
      match WriteAt(s.lineage, p, proc)
      case Some(r) =>
        var (t, reply) := Send(s, r, net);
        WriteAtOk(s, p, proc);
        SendKeeps(s, r, net);
        SendReplyFact(s, r, net);
        ResumeOk(s, t, p, proc, reply);
        GotoKeeps(t, p, Resume(proc, reply));
        GrowsTransitive(s.store, t.store, Step(s, p, net).store);
      case None =>
        LookOk(s, p, proc, net);
        GotoKeeps(s, p, Look(s, proc, net));
    }
  }

  // ---- Every event, every run ---------------------------------------------------

  lemma BeginKeeps(s: State, p: nat, call: Call)
    requires Inv(s) && p !in s.procs
    ensures Inv(Next(s, Begin(p, call))) && Advances(s, Next(s, Begin(p, call)))
  {
    hide EffectOk, RequestOk, ProcOk;
    var t := Next(s, Begin(p, call));
    Started(t, p, call);
    forall k | 0 <= k < |t.store.log| ensures EffectOk(t, t.store.log[k]) {
      EffectOkGrows(s, t, s.store.log[k]);
    }
    forall k | 0 <= k < |t.floating| ensures RequestOk(t, t.floating[k]) {
      RequestOkGrows(s, t, t.floating[k]);
    }
    forall q | q in t.procs ensures ProcOk(t, q, t.procs[q]) {
      if q != p {
        ProcOkGrows(s, t, q, s.procs[q]);
      }
    }
  }

  /** A call that has just begun owes nothing yet. */
  lemma Started(s: State, p: nat, call: Call)
    ensures ProcOk(s, p, Proc(call, Admit(s, call)))
  {
  }

  lemma NextKeeps(s: State, e: Event)
    requires Inv(s)
    ensures Inv(Next(s, e)) && Advances(s, Next(s, e))
  {
    hide ProcOk, EffectOk, StoreInv;
    match e
    case Begin(p, call) => if p !in s.procs { BeginKeeps(s, p, call); }
    case Late(k) => if k < |s.floating| { LandKeeps(s, s.floating[k]); }
    case Move(p, net) => if p in s.procs { StepKeeps(s, p, net); }
  }

  lemma {:induction false} RunKeeps(s: State, events: seq<Event>)
    requires Inv(s)
    ensures Inv(Run(s, events)) && Advances(s, Run(s, events))
    decreases |events|
  {
    hide Inv;
    if events != [] {
      var init := events[..|events| - 1];
      RunKeeps(s, init);
      NextKeeps(Run(s, init), events[|events| - 1]);
      GrowsTransitive(s.store, Run(s, init).store, Run(s, events).store);
    }
  }
}
