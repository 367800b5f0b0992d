/** The inductive invariant of the value protocol, kept by every event but a raw delete. */
module ValueProofs {
  import opened Basics
  import opened EraStore
  import opened Values

  type Log = seq<Effect<Body>>

  /** The control carries what its writer was asked to publish. */
  predicate Made(who: nat, call: Call, c: Control) {
    && Writes(call)
    && match call.content
       case Whole(payload) => c.body == Inline(payload)
       case Chunked(chunks, _) =>
         c.body.Manifest? && c.body.commit.who == who && c.body.entries == EntriesOf(chunks)
  }

  /** A create starts at version 0; a compare-exchange is the next version of what it replaces. */
  predicate RankRule(over: Option<Control>, c: Control) {
    if over.None? then c.rank == 0 else c.rank == over.value.rank + 1 && c.era == over.value.era
  }

  ghost predicate LandedBy(log: Log, p: nat, c: Control) {
    exists j :: 0 <= j < |log| && log[j].Wrote? && log[j].who == p && log[j].cell == c
  }

  ghost predicate LandedOpen(log: Log, p: nat, c: Control) {
    exists j :: 0 <= j < |log| && OpenAt(log, j) && log[j].who == p && log[j].cell == c
  }

  /** Another control holds, in the open era, exactly the generation that `c` was to take. */
  ghost predicate Displaced(log: Log, c: Control) {
    exists j :: 0 <= j < |log| && OpenAt(log, j)
      && log[j].cell.era == c.era && log[j].cell.rank == c.rank && log[j].cell != c
  }

  predicate BindOk(s: State, call: Call, b: Bind) {
    && b.era <= Era(s.store)
    && (call.Create? ==> b.version == 0)
    && (call.CompareExchange? ==> b.era == call.expected.era && b.version == call.expected.rank + 1)
  }

  ghost predicate RequestOk(s: State, r: Request) {
    r.Guarded? ==>
      && WriteOk(s.store, r.write)
      && (r.write.PutCell? ==>
            && r.write.who in s.procs && Made(r.write.who, s.procs[r.write.who].call, r.write.cell)
            && r.write.over == Over(s.procs[r.write.who].call) && RankRule(r.write.over, r.write.cell))
  }

  ghost predicate EffectOk(s: State, e: Effect<Body>) {
    e.Wrote? ==>
      && e.who in s.procs && Made(e.who, s.procs[e.who].call, e.cell)
      && e.over == Over(s.procs[e.who].call) && RankRule(e.over, e.cell)
  }

  ghost predicate OutcomeOk(s: State, p: nat, o: Outcome) {
    match o
    case Acked(c) => LandedOpen(s.store.log, p, c)
    case LostConflict(c) => c.era < Era(s.store) || Displaced(s.store.log, c)
    case _ => true
  }

  ghost predicate ProcOk(s: State, p: nat, proc: Proc) {
    && Fits(proc)
    && match proc.pc
       case CasGate => proc.call.expected.era <= Era(s.store)
       case FenceRead(b) => BindOk(s, proc.call, b)
       case Staging(b, _) => BindOk(s, proc.call, b)
       case CommitGate(b) => BindOk(s, proc.call, b)
       case Put(b) => BindOk(s, proc.call, b)
       case OracleFloor(b) => BindOk(s, proc.call, b)
       case OracleRead(b) => BindOk(s, proc.call, b)
       case Recheck(b) => BindOk(s, proc.call, b) && LandedBy(s.store.log, p, Target(p, proc.call, b))
       case Reread(b) => b.era < Era(s.store)
       case Evict(b) => b.era < Era(s.store)
       case Retire(b) => b.era < Era(s.store)
       case TombPut(seen) => s.store.log != [] && seen.era <= Era(s.store)
       case BumpRead(seen, _) => s.store.tomb.Some? && seen.era <= Era(s.store)
       case BumpPut(seen, _, _) => s.store.tomb.Some? && seen.era <= Era(s.store)
       case TailDelete(seen) => seen.era < Era(s.store)
       case Finished(o) => OutcomeOk(s, p, o)
       case _ => true
  }

  ghost predicate Inv(s: State) {
    && StoreInv(s.store)
    && (forall k :: 0 <= k < |s.store.log| ==> EffectOk(s, s.store.log[k]))
    && (forall k :: 0 <= k < |s.floating| ==> RequestOk(s, s.floating[k]))
    && (forall p :: p in s.procs ==> ProcOk(s, p, s.procs[p]))
  }

  ghost predicate Advances(a: State, b: State) {
    && Grows(a.store, b.store)
    && (forall p :: p in a.procs ==> p in b.procs && b.procs[p].call == a.procs[p].call)
  }

  // ---- Stability ------------------------------------------------------------

  lemma LandedGrows(a: Log, b: Log, p: nat, c: Control)
    requires a <= b
    ensures LandedBy(a, p, c) ==> LandedBy(b, p, c)
    ensures LandedOpen(a, p, c) ==> LandedOpen(b, p, c)
    ensures Displaced(a, c) ==> Displaced(b, c)
  {
    assert forall j :: 0 <= j < |a| ==> b[j] == a[j] && (OpenAt(a, j) ==> OpenAt(b, j));
  }

  lemma ProcOkGrows(a: State, b: State, p: nat, proc: Proc)
    requires ProcOk(a, p, proc) && Advances(a, b)
    ensures ProcOk(b, p, proc)
  {
    hide LandedBy, LandedOpen, Displaced, Made;
    match proc.pc
    case Recheck(bind) => LandedGrows(a.store.log, b.store.log, p, Target(p, proc.call, bind));
    case Finished(o) =>
      if o.Acked? || o.LostConflict? {
        LandedGrows(a.store.log, b.store.log, p, o.control);
      }
    case _ =>
  }

  lemma InvGrows(a: State, b: State)
    requires Inv(a) && Advances(a, b) && StoreInv(b.store)
    requires b.floating == a.floating || b.floating == []
    requires forall k :: |a.store.log| <= k < |b.store.log| ==> EffectOk(b, b.store.log[k])
    requires forall p :: p in b.procs ==> (p in a.procs && b.procs[p] == a.procs[p]) || ProcOk(b, p, b.procs[p])
    ensures Inv(b)
  {
    hide ProcOk, Made, StoreInv;
    forall p | p in b.procs ensures ProcOk(b, p, b.procs[p]) {
      if p in a.procs && b.procs[p] == a.procs[p] {
        ProcOkGrows(a, b, p, a.procs[p]);
      }
    }
  }

  // ---- Requests and transitions -----------------------------------------------

  lemma LandKeeps(s: State, r: Request)
    requires Inv(s) && RequestOk(s, r)
    ensures Inv(Land(s, r)) && Advances(s, Land(s, r))
  {
    hide ProcOk, Made;
    if r.Guarded? {
      ApplyKeeps(s.store, r.write);
    }
    InvGrows(s, Land(s, r));
  }

  lemma FloatKeeps(s: State, r: Request)
    requires Inv(s) && RequestOk(s, r)
    ensures Inv(s.(floating := s.floating + [r])) && Advances(s, s.(floating := s.floating + [r]))
  {
    hide ProcOk, Made;
    var t := s.(floating := s.floating + [r]);
    InvGrows(s, s.(floating := []));
    forall p | p in t.procs ensures ProcOk(t, p, t.procs[p]) {
      ProcOkGrows(s, t, p, s.procs[p]);
    }
  }

  lemma SendKeeps(s: State, r: Request, net: Net)
    requires Inv(s) && RequestOk(s, r)
    ensures var t := Send(s, r, net).0; Inv(t) && Advances(s, t) && t.procs == s.procs
  {
    hide Inv, RequestOk;
    LandKeeps(s, r);
    FloatKeeps(s, r);
  }

  lemma GotoKeeps(s: State, p: nat, pc: Pc)
    requires Inv(s) && p in s.procs && ProcOk(s, p, s.procs[p].(pc := pc))
    ensures Inv(Goto(s, p, pc)) && Advances(s, Goto(s, p, pc))
  {
    hide ProcOk, Made;
    var t := Goto(s, p, pc);
    ProcOkGrows(s, t, p, t.procs[p]);
    InvGrows(s, t);
  }

  ghost predicate ReplyFact(s: State, t: State, r: Request, reply: Reply) {
    r.Guarded? && !reply.Lost? ==>
      match r.write
      case PutCell(who, cell, _) => reply.Done? ==> LandedBy(t.store.log, who, cell)
      case PutTomb(_) => t.store.tomb.Some?
      case PutCounter(_) => reply.Done? ==> Era(s.store) < Era(t.store)
      case DeleteCell(_) => true
  }

  lemma SendReplyFact(s: State, r: Request, net: Net)
    ensures var (t, reply) := Send(s, r, net); ReplyFact(s, t, r, reply)
  {
    var (t, reply) := Send(s, r, net);
    if r.Guarded? && r.write.PutCell? && reply.Done? {
      assert t.store.log[|s.store.log|] == Wrote(r.write.who, r.write.cell, r.write.over, Era(s.store));
    }
  }

  /** The re-check after a landing: the stamped era, or proof that it is closed. */
  lemma RecheckLook(s: State, p: nat, c: Control)
    requires StoreInv(s.store) && LandedBy(s.store.log, p, c)
    ensures Era(s.store) == c.era ==> LandedOpen(s.store.log, p, c)
    ensures Era(s.store) != c.era ==> c.era < Era(s.store)
  {
    var log := s.store.log;
    var j :| 0 <= j < |log| && log[j].Wrote? && log[j].who == p && log[j].cell == c;
    assert LegalAt(log, j);
    LaterAt(log, j, |log| - 1);
    assert Era(s.store) == c.era ==> OpenAt(log, j);
  }

  /** The standing control is the last effect, and its era is not ahead of the counter. */
  lemma StandingControl(s: State)
    requires Inv(s)
    ensures s.store.cell.Some? ==>
      && var log := s.store.log; var c := s.store.cell.value;
      && log != [] && log[|log| - 1].Wrote? && log[|log| - 1].cell == c
      && log[|log| - 1].who in s.procs && Made(log[|log| - 1].who, s.procs[log[|log| - 1].who].call, c)
      && c.era <= Era(s.store)
      && (c.era == Era(s.store) ==> OpenAt(log, |log| - 1))
  {
    hide ProcOk, Made;
    if s.store.cell.Some? {
      assert LegalAt(s.store.log, |s.store.log| - 1);
    }
  }

  lemma WriteAtOk(s: State, p: nat, proc: Proc, turn: Turn)
    requires p in s.procs && s.procs[p].call == proc.call
    requires ProcOk(s, p, proc) && WriteAt(p, proc, turn).Some?
    ensures RequestOk(s, WriteAt(p, proc, turn).value)
  {
  }

  lemma ResumeOk(s: State, t: State, p: nat, proc: Proc, turn: Turn, reply: Reply)
    requires ProcOk(s, p, proc) && Advances(s, t) && WriteAt(p, proc, turn).Some?
    requires ReplyFact(s, t, WriteAt(p, proc, turn).value, reply)
    ensures ProcOk(t, p, proc.(pc := Resume(proc, turn, reply)))
  {
    hide LandedBy, LandedOpen, Displaced, Made;
    ProcOkGrows(s, t, p, proc);
  }

  /**
   The oracle.  Row 1: a control of the bound generation carrying our commit can only be ours.
   Row 2: a foreign control of the bound generation either displaces ours in the open era, or that
   era is already closed.
  */
  lemma AdjudicateOk(s: State, p: nat, proc: Proc, b: Bind)
    requires Inv(s) && p in s.procs && proc == s.procs[p] && proc.pc == OracleRead(b)
    ensures Fits(proc) && ProcOk(s, p, proc.(pc := Adjudicate(s, p, proc, b)))
  {
    assert ProcOk(s, p, proc);
    StandingControl(s);
    hide Inv;
    if s.store.cell.Some? {
      var c := s.store.cell.value;
      var log := s.store.log;
      if c.era == b.era && c.rank == b.version {
        if c.body.Manifest? && c.body.commit == Commit(p, b.left) {
          assert c == Target(p, proc.call, b);
        } else if c.era == Era(s.store) {
          assert OpenAt(log, |log| - 1);
          assert Displaced(log, Target(p, proc.call, b));
        }
      }
    }
  }

  predicate Preparing(pc: Pc) {
    pc.Stamp? || pc.CasRead? || pc.CasGate? || pc.FenceRead? || pc.Staging? || pc.CommitGate?
  }

  predicate Settling(pc: Pc) { pc.OracleFloor? || pc.OracleRead? || pc.Recheck? || pc.Reread? }

  lemma LookPreparing(s: State, p: nat, proc: Proc, turn: Turn)
    requires Inv(s) && p in s.procs && proc == s.procs[p] && ProcOk(s, p, proc) && !proc.pc.Finished?
    requires WriteAt(p, proc, turn).None?
    requires Preparing(proc.pc)
    ensures ProcOk(s, p, proc.(pc := Look(s, p, proc, turn)))
  {
    StandingControl(s);
    hide Inv, StoreInv, LandedBy, LandedOpen, Displaced, Made;
  }

  lemma LookSettling(s: State, p: nat, proc: Proc, turn: Turn)
    requires Inv(s) && p in s.procs && proc == s.procs[p] && ProcOk(s, p, proc) && !proc.pc.Finished?
    requires WriteAt(p, proc, turn).None?
    requires Settling(proc.pc)
    ensures ProcOk(s, p, proc.(pc := Look(s, p, proc, turn)))
  {
    InvStore(s);
    hide Inv, LandedBy, LandedOpen, Displaced, Made, EntriesOf;
    if turn.net.Deliver? || turn.net.Refuse? {
      match proc.pc
      case OracleRead(b) => AdjudicateOk(s, p, proc, b);
      case Recheck(b) => RecheckLook(s, p, Target(p, proc.call, b));
      case _ =>
    }
  }

  lemma LookElsewhere(s: State, p: nat, proc: Proc, turn: Turn)
    requires Inv(s) && p in s.procs && proc == s.procs[p] && ProcOk(s, p, proc) && !proc.pc.Finished?
    requires WriteAt(p, proc, turn).None?
    requires !Preparing(proc.pc) && !Settling(proc.pc)
    ensures ProcOk(s, p, proc.(pc := Look(s, p, proc, turn)))
  {
    hide Inv, LandedBy, LandedOpen, Displaced, Made, References, Adjudicate, Staged, Verified, BindOk;
    StandingControl(s);
    InvStore(s);
  }

  lemma LookOk(s: State, p: nat, proc: Proc, turn: Turn)
    requires Inv(s) && p in s.procs && proc == s.procs[p] && ProcOk(s, p, proc) && !proc.pc.Finished?
    requires WriteAt(p, proc, turn).None?
    ensures ProcOk(s, p, proc.(pc := Look(s, p, proc, turn)))
  {
    hide Inv, ProcOk;
    if Preparing(proc.pc) {
      LookPreparing(s, p, proc, turn);
    } else if Settling(proc.pc) {
      LookSettling(s, p, proc, turn);
    } else {
      LookElsewhere(s, p, proc, turn);
    }
  }

  lemma InvStore(s: State)
    requires Inv(s)
    ensures StoreInv(s.store)
  {
  }

  lemma OwnFact(s: State, p: nat)
    requires Inv(s) && p in s.procs
    ensures ProcOk(s, p, s.procs[p])
  {
  }

  lemma StepKeeps(s: State, p: nat, turn: Turn)
    requires Inv(s) && p in s.procs
    ensures Inv(Step(s, p, turn)) && Advances(s, Step(s, p, turn))
  {
    var proc := s.procs[p];
    OwnFact(s, p);
    hide Inv, ProcOk, RequestOk, ReplyFact;
    if Fits(proc) && !proc.pc.Finished? {
      match WriteAt(p, proc, turn)
      case Some(r) =>
        var (t, reply) := Send(s, r, turn.net);
        WriteAtOk(s, p, proc, turn);
        SendKeeps(s, r, turn.net);
        SendReplyFact(s, r, turn.net);
        ResumeOk(s, t, p, proc, turn, reply);
        GotoKeeps(t, p, Resume(proc, turn, reply));
        GrowsTransitive(s.store, t.store, Step(s, p, turn).store);
      case None =>
        LookOk(s, p, proc, turn);
        GotoKeeps(s, p, Look(s, p, proc, turn));
    }
  }

  lemma EnvironmentKeeps(s: State, e: Event)
    requires Inv(s) && (e.Begin? || e.Drain? || e.SetFence? || e.Trim?)
    ensures Inv(Next(s, e)) && Advances(s, Next(s, e))
  {
    hide Made, EffectOk, RequestOk, ProcOk, StoreInv;
    if e.Begin? && e.p !in s.procs { Started(Next(s, e), e.p, e.call); }
    InvStore(s);
    InvGrows(s, Next(s, e));
  }

  /** A call that has just begun owes nothing yet. */
  lemma Started(s: State, p: nat, call: Call)
    ensures ProcOk(s, p, Proc(call, Admit(call)))
  {
  }

  lemma NextKeeps(s: State, e: Event)
    requires Inv(s) && !e.RawDelete?
    ensures Inv(Next(s, e)) && Advances(s, Next(s, e))
  {
    hide EffectOk, StoreInv, Step;
    match e
    case Late(k) => if k < |s.floating| { LandKeeps(s, s.floating[k]); }
    case Move(p, turn) => if p in s.procs { StepKeeps(s, p, turn); }
    case Crash(p) => if p in s.procs && !s.procs[p].pc.Finished? { GotoKeeps(s, p, Finished(Crashed)); }
    case _ => EnvironmentKeeps(s, e);
  }

  lemma {:induction false} RunKeeps(s: State, events: seq<Event>)
    requires Inv(s) && forall i :: 0 <= i < |events| ==> !events[i].RawDelete?
    ensures Inv(Run(s, events)) && Advances(s, Run(s, events))
    decreases |events|
  {
    hide Inv, Next;
    if events != [] {
      var init := events[..|events| - 1];
      RunKeeps(s, init);
      NextKeeps(Run(s, init), events[|events| - 1]);
      GrowsTransitive(s.store, Run(s, init).store, Run(s, events).store);
    }
  }
}
