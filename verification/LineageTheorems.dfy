/** What the lineage protocol guarantees over every run from an empty store. */
module LineageTheorems {
  import opened Basics
  import opened EraStore
  import opened Records
  import opened Lineage
  import opened LineageProofs

  /** A run of the protocol from the empty store. */
  datatype Trace = Trace(lineage: nat, successors: bool, events: seq<Event>)

  /** The state after the first `i` events. */
  function Reach(tr: Trace, i: nat): State
    requires i <= |tr.events|
  {
    Run(Initial(tr.lineage, tr.successors), tr.events[..i])
  }

  function End(tr: Trace): State { Reach(tr, |tr.events|) }

  lemma ReachInv(tr: Trace, i: nat)
    requires i <= |tr.events|
    ensures Inv(Reach(tr, i))
    ensures Reach(tr, i).lineage == tr.lineage
  {
    RunKeeps(Initial(tr.lineage, tr.successors), tr.events[..i]);
  }

  lemma ReachStep(tr: Trace, i: nat)
    requires i < |tr.events|
    ensures Reach(tr, i + 1) == Next(Reach(tr, i), tr.events[i])
  {
    assert tr.events[..i + 1][..i] == tr.events[..i];
  }

  lemma NothingYet(tr: Trace)
    ensures Reach(tr, 0).store.log == [] && Reach(tr, 0).procs == map[]
  {
    assert tr.events[..0] == [];
  }

  function Outcomes(s: State, p: nat): Option<Outcome> {
    if p in s.procs && s.procs[p].pc.Finished? then Some(s.procs[p].pc.outcome) else None
  }

  // ---- Era safety of appends -------------------------------------------------

  /** Event `i` is the one that put `h` in place for call `p`, while the counter read `at`. */
  ghost predicate LandsAt(tr: Trace, i: nat, p: nat, h: Head, at: nat)
    requires i < |tr.events|
  {
    var a, b := Reach(tr, i), Reach(tr, i + 1);
    && Era(a.store) == at && b.store.cell == Some(h)
    && b.store.log == a.store.log + [Wrote(p, h, a.store.cell, at)]
  }

  lemma EventIsOneEffect(s: State, e: Event)
    ensures OneEffect(s.store, Next(s, e).store)
  {
    hide OneEffect, Applies, WriteAt, Resume, Look, Answer, IfMatch;
    UnchangedIsOneEffect(s.store);
    var r := match e
      case Begin(_, _) => None
      case Late(k) => if k < |s.floating| then Some(s.floating[k]) else None
      case Move(p, _) => if p in s.procs && Fits(s.procs[p]) then WriteAt(s.lineage, p, s.procs[p]) else None;
    if r.Some? && r.value.Guarded? {
      ApplyIsOneEffect(s.store, r.value.write);
    }
  }

  /** The log is the history of the run: every write in it is the effect of one event. */
  lemma {:induction false} EffectHappened(tr: Trace, n: nat, j: nat)
    returns (i: nat)
    requires n <= |tr.events| && j < |Reach(tr, n).store.log|
    requires Reach(tr, n).store.log[j].Wrote?
    ensures i < n
    ensures var w := Reach(tr, n).store.log[j];
      LandsAt(tr, i, w.who, w.cell, w.at)
    decreases n
  {
    if n == 0 {
      NothingYet(tr);
      assert false;
    }
    var a, b := Reach(tr, n - 1), Reach(tr, n);
    ReachStep(tr, n - 1);
    EventIsOneEffect(a, tr.events[n - 1]);
    hide Reach, Next;
    if j < |a.store.log| {
      i := EffectHappened(tr, n - 1, j);
    } else {
      i := n - 1;
    }
  }

  /**
   An append returns Ok only if the incarnation counter named its head's incarnation at the very
   event that put its head in place; and that head is the one the caller asked for.
  */
  lemma AckedAppendLandedOpen(tr: Trace, p: nat, h: Head) returns (i: nat)
    requires Outcomes(End(tr), p) == Some(Acked(h))
    ensures i < |tr.events| && LandsAt(tr, i, p, h, h.era)
    ensures var call := End(tr).procs[p].call;
      && (Appends(call) || EmptyBatch(call)) && h == HeadFor(tr.lineage, call, h.era)
      && (call.Successor? ==> h.era == call.expected.era)
  {
    AckedIsOwn(tr, p, h);
    hide Ready, HeadOk, HeadChain, HeadOf, Made, HeadFor;
    var s := End(tr);
    ReachInv(tr, |tr.events|);
    OwnFact(s, p);
    var j :| 0 <= j < |s.store.log| && OpenAt(s.store.log, j) && s.store.log[j].who == p && s.store.log[j].cell == h;
    i := EffectHappened(tr, |tr.events|, j);
  }

  lemma AckedIsOwn(tr: Trace, p: nat, h: Head)
    requires Outcomes(End(tr), p) == Some(Acked(h))
    ensures Made(End(tr), End(tr).procs[p].call, h) && End(tr).lineage == tr.lineage
    ensures Appends(End(tr).procs[p].call) || EmptyBatch(End(tr).procs[p].call)
  {
    var s := End(tr);
    ReachInv(tr, |tr.events|);
    OwnFact(s, p);
    assert s.lineage == tr.lineage;
    assert Made(s, s.procs[p].call, h);
    hide Inv, HeadOk;
  }

  /** And its chain is what the call was shown (nothing, for a genesis), followed by exactly the submitted records. */
  lemma AckedChain(tr: Trace, p: nat, h: Head)
    requires Proper(End(tr)) && Outcomes(End(tr), p) == Some(Acked(h))
    ensures var call := End(tr).procs[p].call;
      Appends(call) && HeadChain(tr.lineage, h) == Below(End(tr), call) + call.records
  {
    AckedIsOwn(tr, p, h);
    hide Ready, HeadOk, HeadChain, HeadOf;
    ReadyChain(End(tr), End(tr).procs[p].call, h.era);
  }

  /** A successor call whose token is of a closed era is stopped at the gate. */
  ghost predicate Barred(s: State, p: nat) {
    && p in s.procs && s.procs[p].call.Successor? && s.procs[p].call.expected.era < Era(s.store)
    && (s.procs[p].pc.GateRead? || (s.procs[p].pc.Finished? && !s.procs[p].pc.outcome.Acked?))
  }

  lemma BarredStays(s: State, e: Event, p: nat)
    requires Inv(s) && Barred(s, p)
    ensures Barred(Next(s, e), p)
  {
    hide Inv, Step;
    NextKeeps(s, e);
    match e
    case Move(m, net) => if m in s.procs { BarredMove(s, m, net, p); }
    case _ =>
  }

  lemma BarredMove(s: State, m: nat, net: Net, p: nat)
    requires m in s.procs && Barred(s, p)
    ensures var t := Step(s, m, net); p in t.procs && t.procs[p].call == s.procs[p].call
    ensures var pc := Step(s, m, net).procs[p].pc; pc.GateRead? || (pc.Finished? && !pc.outcome.Acked?)
  {
    hide Resume;
    OneMoves(s, m, net);
  }

  lemma OneMoves(s: State, m: nat, net: Net)
    requires m in s.procs
    ensures var t := Step(s, m, net); t.procs == s.procs || exists pc :: t.procs == s.procs[m := s.procs[m].(pc := pc)]
  {
    hide Resume, Look, WriteAt;
    var t := Step(s, m, net);
    assert t.procs == s.procs || t.procs == s.procs[m := s.procs[m].(pc := t.procs[m].pc)];
  }


  lemma CallStays(s: State, e: Event, p: nat)
    requires p in s.procs
    ensures p in Next(s, e).procs && Next(s, e).procs[p].call == s.procs[p].call
  {
    hide Fits, WriteAt, Look, Resume;
  }

  lemma StaleTokenIsBarred(s: State, e: Event, p: nat)
    requires p !in s.procs && p in Next(s, e).procs
    requires var call := Next(s, e).procs[p].call; call.Successor? && call.expected.era < Era(Next(s, e).store)
    ensures Barred(Next(s, e), p)
  {
    hide Fits, WriteAt, Look, Resume;
  }

  /**
   Once the counter has passed a token's incarnation, no call started with that token is ever
   acknowledged: not after a byte-identical rebirth, not while a stale head is standing again.
  */
  lemma {:induction false} StaleTokenNeverAcked(tr: Trace, m: nat, n: nat, p: nat)
    requires m <= n <= |tr.events|
    requires p !in Reach(tr, m).procs
    requires p in Reach(tr, n).procs
    requires var call := Reach(tr, n).procs[p].call;
      call.Successor? && call.expected.era < Era(Reach(tr, m).store)
    ensures Barred(Reach(tr, n), p)
    decreases n
  {
    hide Inv, ProcOk, Next;
    if m < n {
      var a, b := Reach(tr, n - 1), Reach(tr, n);
      ReachStep(tr, n - 1);
      ReachInv(tr, n - 1);
      EraGrows(tr, m, n - 1);
      NextKeeps(a, tr.events[n - 1]);
      if p in a.procs {
        CallStays(a, tr.events[n - 1], p);
        StaleTokenNeverAcked(tr, m, n - 1, p);
        BarredStays(a, tr.events[n - 1], p);
      } else {
        StaleTokenIsBarred(a, tr.events[n - 1], p);
      }
    }
  }

  lemma {:induction false} EraGrows(tr: Trace, m: nat, n: nat)
    requires m <= n <= |tr.events|
    ensures Advances(Reach(tr, m), Reach(tr, n))
    decreases n
  {
    hide Inv, Next;
    if m < n {
      EraGrows(tr, m, n - 1);
      ReachStep(tr, n - 1);
      ReachInv(tr, n - 1);
      NextKeeps(Reach(tr, n - 1), tr.events[n - 1]);
    }
  }

  // ---- The chain of an open era -------------------------------------------------

  /** Without empty batches, every replacement of a head moves the generation forward. */
  lemma HeadsAdvance(s: State)
    requires Inv(s) && Proper(s)
    ensures Advancing(s.store.log)
  {
    hide ProcOk, RequestOk, HeadOk;
    forall k | 0 <= k < |s.store.log| ensures AdvancesAt(s.store.log, k) {
      var e := s.store.log[k];
      assert EffectOk(s, e) && LegalAt(s.store.log, k);
      if e.Wrote? && e.over.Some? {
        assert EffectOk(s, s.store.log[k - 1]);
        LongerRanksHigher(s, e.over.value, e.cell);
      }
    }
  }

  lemma LongerRanksHigher(s: State, g: Head, h: Head)
    requires HeadOk(s.lineage, s.objects, g) && HeadOk(s.lineage, s.objects, h) && Links(s.lineage, Some(g), h)
    ensures g.rank < h.rank
  {
  }

  lemma LandedLinks(s: State, k: nat)
    requires Inv(s) && Proper(s) && k < |s.store.log|
    ensures s.store.log[k].Wrote? ==> Links(s.lineage, s.store.log[k].over, s.store.log[k].cell)
  {
    hide HeadOk, Links, ProcOk, RequestOk;
    assert EffectOk(s, s.store.log[k]);
  }

  /** Open writes of one era extend each other record by record. */
  lemma {:induction false} OpenChain(s: State, j: nat, k: nat)
    requires Inv(s) && Proper(s) && j < k < |s.store.log|
    requires OpenAt(s.store.log, j) && s.store.log[k].at == s.store.log[j].at
    ensures OpenAt(s.store.log, k)
    ensures HeadChain(s.lineage, s.store.log[j].cell) < HeadChain(s.lineage, s.store.log[k].cell)
    decreases k
  {
    hide Inv, HeadOk, HeadChain;
    var log := s.store.log;
    InvStore(s);
    OpenRun(log, j, k);
    LandedLinks(s, k);
    if j < k - 1 {
      LaterAt(log, j, k - 1);
      LaterAt(log, k - 1, k);
      OpenChain(s, j, k - 1);
    }
  }

  /**
   Two acknowledged appends of one incarnation never fork: the lower generation's records are a
   proper prefix of the higher one's, and one generation is acknowledged to at most one call.
  */
  lemma AckedAppendsNest(tr: Trace, p: nat, g: Head, q: nat, h: Head)
    requires var s := End(tr);
      Outcomes(s, p) == Some(Acked(g)) && Outcomes(s, q) == Some(Acked(h))
    requires Proper(End(tr)) && g.era == h.era
    ensures g.rank == h.rank ==> p == q && g == h
    ensures g.rank < h.rank ==> HeadChain(tr.lineage, g) < HeadChain(tr.lineage, h)
  {
    hide Inv, Proper, HeadChain;
    var s := End(tr);
    var log := s.store.log;
    ReachInv(tr, |tr.events|);
    var j := AckedAt(s, p, g);
    var k := AckedAt(s, q, h);
    HeadsAdvance(s);
    InvStore(s);
    OpenRanksGrow(log, j, k);
    if j < k {
      OpenChain(s, j, k);
    }
  }

  /** Where an acknowledged head landed. */
  lemma AckedAt(s: State, p: nat, h: Head) returns (j: nat)
    requires Inv(s) && Outcomes(s, p) == Some(Acked(h))
    ensures j < |s.store.log| && OpenAt(s.store.log, j) && s.store.log[j].who == p && s.store.log[j].cell == h
  {
    OwnFact(s, p);
    hide Inv, Made;
    j :| 0 <= j < |s.store.log| && OpenAt(s.store.log, j) && s.store.log[j].who == p && s.store.log[j].cell == h;
  }

  /** A head is erased only after the counter has left its incarnation behind. */
  lemma OnlyClosedHeadsErased(tr: Trace, i: nat)
    requires i < |tr.events|
    ensures var a, b := Reach(tr, i), Reach(tr, i + 1);
      a.store.cell.Some? ==> a.store.cell.value.era <= Era(a.store)
    ensures var a, b := Reach(tr, i), Reach(tr, i + 1);
      a.store.cell.Some? && b.store.cell.None? ==> a.store.cell.value.era < Era(a.store)
  {
    hide HeadOk, ProcOk;
    var a, b := Reach(tr, i), Reach(tr, i + 1);
    ReachInv(tr, i);
    ReachInv(tr, i + 1);
    ReachStep(tr, i);
    StandingHeadOk(a);
    EventIsOneEffect(a, tr.events[i]);
    if a.store.cell.Some? && b.store.cell.None? {
      assert LegalAt(b.store.log, |a.store.log|);
    }
  }

  /** While an incarnation stays open its standing head only ever grows. */
  lemma OpenHeadOnlyGrows(tr: Trace, m: nat, n: nat)
    requires m <= n <= |tr.events| && Proper(Reach(tr, n))
    requires var a, b := Reach(tr, m), Reach(tr, n);
      a.store.cell.Some? && a.store.cell.value.era == Era(a.store) == Era(b.store)
    ensures var a, b := Reach(tr, m), Reach(tr, n);
      && b.store.cell.Some? && b.store.cell.value.era == a.store.cell.value.era
      && HeadChain(tr.lineage, a.store.cell.value) <= HeadChain(tr.lineage, b.store.cell.value)
  {
    hide HeadOk, ProcOk, RequestOk, Next;
    var a, b := Reach(tr, m), Reach(tr, n);
    ReachInv(tr, m);
    ReachInv(tr, n);
    EraGrows(tr, m, n);
    StandingHeadOk(a);
    var j, k := |a.store.log| - 1, |b.store.log| - 1;
    assert LegalAt(a.store.log, j);
    assert b.store.log[j] == a.store.log[j];
    OpenCellStands(b.store, j);
    if j < k {
      LaterAt(b.store.log, j, k);
      OpenChain(b, j, k);
    }
  }

  // ---- History completeness ---------------------------------------------------------

  /**
   Every head that ever stood at the key, in any run without empty batches, names a chain of
   generation + 1 linked records, all of them stored from then on.
  */
  lemma EveryHeadComplete(tr: Trace, i: nat, n: nat)
    requires i <= n <= |tr.events| && Proper(Reach(tr, n)) && Reach(tr, i).store.cell.Some?
    ensures HeadOk(tr.lineage, Reach(tr, n).objects, Reach(tr, i).store.cell.value)
    ensures Linked(tr.lineage, HeadChain(tr.lineage, Reach(tr, i).store.cell.value), 0, None)
  {
    hide ProcOk;
    var a, b := Reach(tr, i), Reach(tr, n);
    ReachInv(tr, i);
    ReachInv(tr, n);
    StandingHeadOk(a);
    EraGrows(tr, i, n);
    ProperBefore(a, b);
    HeadOkGrows(a, b, a.store.cell.value);
    ChainIsLinked(tr.lineage, a.store.cell.value.body.digest);
  }

  // ---- The existence taxonomy ---------------------------------------------------------

  /** Event `i` is the head read of call `p`, which found no head after `n` effects. */
  ghost predicate HeadReadAt(tr: Trace, i: nat, p: nat, n: nat)
    requires i < |tr.events|
  {
    var a := Reach(tr, i);
    && p in a.procs && a.procs[p].pc.StateHead? && tr.events[i].Move? && tr.events[i].p == p
    && a.store.cell.None? && |a.store.log| == n
  }

  predicate AwaitsWitness(pc: Pc, n: nat) {
    || pc == StateTomb(n)
    || (pc.Finished? && pc.outcome == SeenAbsent(n))
    || (pc.Finished? && pc.outcome.SeenDestroyed? && pc.outcome.effects == n)
  }

  lemma SendKeepsProcs(s: State, r: Request, net: Net)
    ensures Send(s, r, net).0.procs == s.procs
  {
  }

  lemma ResumeNeverAwaits(proc: Proc, reply: Reply, n: nat)
    requires !AwaitsWitness(proc.pc, n)
    ensures !AwaitsWitness(Resume(proc, reply), n)
  {
  }

  lemma LookAwaitsFromHead(s: State, proc: Proc, net: Net, n: nat)
    requires Fits(proc) && !AwaitsWitness(proc.pc, n) && AwaitsWitness(Look(s, proc, net), n)
    ensures proc.pc.StateHead? && s.store.cell.None? && |s.store.log| == n
  {
    hide Target, SuccessorOk;
  }

  lemma AwaitsFromHeadRead(s: State, e: Event, p: nat, n: nat)
    requires p in Next(s, e).procs && AwaitsWitness(Next(s, e).procs[p].pc, n)
    requires !(p in s.procs && AwaitsWitness(s.procs[p].pc, n))
    ensures p in s.procs && s.procs[p].pc.StateHead? && e.Move? && e.p == p
    ensures s.store.cell.None? && |s.store.log| == n
  {
    hide BatchOk, Fits, WriteAt, Resume, Look, Send;
    if e.Move? && e.p in s.procs {
      var proc := s.procs[e.p];
      if Fits(proc) && !proc.pc.Finished? {
        match WriteAt(s.lineage, e.p, proc)
        case Some(r) =>
          SendKeepsProcs(s, r, e.net);
          if e.p == p {
            ResumeNeverAwaits(proc, Send(s, r, e.net).1, n);
          }
        case None =>
          if e.p == p {
            LookAwaitsFromHead(s, proc, e.net, n);
          }
      }
    }
  }

  lemma {:induction false} HeadReadHappened(tr: Trace, m: nat, p: nat, n: nat)
    returns (i: nat)
    requires m <= |tr.events| && p in Reach(tr, m).procs
    requires AwaitsWitness(Reach(tr, m).procs[p].pc, n)
    ensures i < m && HeadReadAt(tr, i, p, n)
    decreases m
  {
    hide Next;
    if m == 0 {
      NothingYet(tr);
      assert false;
    }
    var a := Reach(tr, m - 1);
    ReachStep(tr, m - 1);
    if p in a.procs && AwaitsWitness(a.procs[p].pc, n) {
      i := HeadReadHappened(tr, m - 1, p, n);
    } else {
      AwaitsFromHeadRead(a, tr.events[m - 1], p, n);
      i := m - 1;
    }
  }

  /** A counter above zero implies a standing tombstone, and a tombstone that something once stood. */
  lemma WitnessBeforeCounter(tr: Trace)
    ensures var st := End(tr).store;
      (Era(st) > 0 ==> st.tomb.Some?) && (st.tomb.Some? ==> st.log != [] && st.log[0].Wrote?)
  {
    hide ProcOk, EffectOk;
    ReachInv(tr, |tr.events|);
    var st := End(tr).store;
    if st.log != [] {
      assert LegalAt(st.log, 0);
    }
  }

  /** At an empty head key, a tombstone stands exactly when something was ever written there. */
  lemma EmptyKeyDichotomy(s: State)
    requires Inv(s) && s.store.cell.None?
    ensures s.store.tomb.Some? <==> s.store.log != []
    ensures s.store.log == [] ==> Era(s.store) == 0
  {
    hide ProcOk, EffectOk, RequestOk;
    StandingHeadOk(s);
    if s.store.tomb.None? {
      NoWitnessNoErasure(s.store);
    }
  }

  /**
   `Absent` is true at the instant of the head read: nothing had ever been written there, there was
   no tombstone, and the counter was absent.
  */
  lemma AbsentWasTrue(tr: Trace, p: nat, n: nat) returns (i: nat)
    requires Outcomes(End(tr), p) == Some(SeenAbsent(n))
    ensures i < |tr.events| && HeadReadAt(tr, i, p, n)
    ensures var st := Reach(tr, i).store;
      st.cell.None? && st.log == [] && st.tomb.None? && Era(st) == 0
  {
    i := HeadReadHappened(tr, |tr.events|, p, n);
    ReachInv(tr, |tr.events|);
    ReachInv(tr, i);
    OwnFact(End(tr), p);
    EmptyKeyDichotomy(Reach(tr, i));
  }

  /**
   `Destroyed` was true at the instant of the head read if and only if the head key had been written
   before that read; otherwise the lineage was pristine then and was created in between.
  */
  lemma DestroyedTrueIffCreatedBefore(tr: Trace, p: nat, t: Tombstone, n: nat)
    returns (i: nat)
    requires Outcomes(End(tr), p) == Some(SeenDestroyed(t, n))
    ensures i < |tr.events| && HeadReadAt(tr, i, p, n)
    ensures Reach(tr, i).store.tomb.Some? <==> n > 0
    ensures End(tr).store.tomb == Some(t)
    ensures End(tr).store.log != []
  {
    i := HeadReadHappened(tr, |tr.events|, p, n);
    ReachInv(tr, i);
    ReachInv(tr, |tr.events|);
    OwnFact(End(tr), p);
    EmptyKeyDichotomy(Reach(tr, i));
    WitnessBeforeCounter(tr);
  }

  /** A head decodes exactly when a well-formed record could be the one it names. */
  lemma DecodableIff(h: Head)
    requires h.rank <= U64_MAX
    ensures Decodable(h) <==> exists r: Record :: WellFormed(r) && r.sequence == h.rank && r.prior == h.body.prior
  {
    if Decodable(h) {
      var r := Record(h.body.lineage, h.rank, h.body.prior, []);
      assert WellFormed(r) && r.sequence == h.rank && r.prior == h.body.prior;
    }
  }
}
