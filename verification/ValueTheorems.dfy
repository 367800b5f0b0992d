/** What the value protocol guarantees over every run without raw deletes. */
module ValueTheorems {
  import opened Basics
  import opened EraStore
  import opened Values
  import opened ValueProofs

  /** Raw deletes leave the incarnation alone, so the era theorems are about runs without them. */
  ghost predicate Disciplined(events: seq<Event>) {
    forall i :: 0 <= i < |events| ==> !events[i].RawDelete?
  }

  function Reach(events: seq<Event>, i: nat): State
    requires i <= |events|
  {
    Run(INITIAL, events[..i])
  }

  function End(events: seq<Event>): State { Reach(events, |events|) }

  function Outcomes(s: State, p: nat): Option<Outcome> {
    if p in s.procs && s.procs[p].pc.Finished? then Some(s.procs[p].pc.outcome) else None
  }

  lemma NothingYet(events: seq<Event>)
    ensures Reach(events, 0) == INITIAL
  {
    assert events[..0] == [];
  }

  lemma ReachInv(events: seq<Event>, i: nat)
    requires i <= |events| && Disciplined(events)
    ensures Inv(Reach(events, i))
  {
    RunKeeps(INITIAL, events[..i]);
  }

  lemma ReachStep(events: seq<Event>, i: nat)
    requires i < |events|
    ensures Reach(events, i + 1) == Next(Reach(events, i), events[i])
  {
    assert events[..i + 1][..i] == events[..i];
  }

  lemma {:induction false} ReachAdvances(events: seq<Event>, m: nat, n: nat)
    requires m <= n <= |events| && Disciplined(events)
    ensures Advances(Reach(events, m), Reach(events, n))
    decreases n
  {
    hide Inv, Next;
    if m < n {
      ReachAdvances(events, m, n - 1);
      ReachStep(events, n - 1);
      ReachInv(events, n - 1);
      NextKeeps(Reach(events, n - 1), events[n - 1]);
    }
  }

  // ---- Receipts name values that stood ------------------------------------------

  /** Event `i` put control `c` in place for call `p`, replacing what the call expected. */
  ghost predicate LandsAt(events: seq<Event>, i: nat, p: nat, c: Control, at: nat)
    requires i < |events|
  {
    var a, b := Reach(events, i), Reach(events, i + 1);
    && Era(a.store) == at && b.store.cell == Some(c)
    && b.store.log == a.store.log + [Wrote(p, c, a.store.cell, at)]
  }

  lemma EventIsOneEffect(s: State, e: Event)
    requires !e.RawDelete?
    ensures OneEffect(s.store, Next(s, e).store)
  {
    hide OneEffect, Applies, WriteAt, Resume, Look, Answer, IfMatch;
    UnchangedIsOneEffect(s.store);
    var r := match e
      case Late(k) => if k < |s.floating| then Some(s.floating[k]) else None
      case Move(p, turn) => if p in s.procs && Fits(s.procs[p]) then WriteAt(p, s.procs[p], turn) else None
      case _ => None;
    if r.Some? && r.value.Guarded? {
      ApplyIsOneEffect(s.store, r.value.write);
    }
  }

  lemma {:induction false} EffectHappened(events: seq<Event>, n: nat, j: nat) returns (i: nat)
    requires n <= |events| && Disciplined(events)
    requires j < |Reach(events, n).store.log| && Reach(events, n).store.log[j].Wrote?
    ensures i < n
    ensures var w := Reach(events, n).store.log[j]; LandsAt(events, i, w.who, w.cell, w.at)
    decreases n
  {
    hide Next;
    if n == 0 {
      NothingYet(events);
      assert false;
    }
    ReachStep(events, n - 1);
    EventIsOneEffect(Reach(events, n - 1), events[n - 1]);
    if j < |Reach(events, n - 1).store.log| {
      i := EffectHappened(events, n - 1, j);
    } else {
      i := n - 1;
    }
  }

  /**
   A create or compare-exchange returns a receipt only for a control that stood at the key, put there
   by this call while the counter named the control's incarnation: whether the PUT was answered or
   the oracle recovered it.
  */
  lemma ReceiptStood(events: seq<Event>, p: nat, c: Control) returns (i: nat)
    requires Disciplined(events) && Outcomes(End(events), p) == Some(Acked(c))
    ensures i < |events| && LandsAt(events, i, p, c, c.era)
  {
    var s := End(events);
    ReachInv(events, |events|);
    OwnFact(s, p);
    var j :| 0 <= j < |s.store.log| && OpenAt(s.store.log, j) && s.store.log[j].who == p && s.store.log[j].cell == c;
    i := EffectHappened(events, |events|, j);
  }

  /** Versions go up by one, so replacements advance. */
  lemma VersionsAdvance(s: State)
    requires Inv(s)
    ensures Advancing(s.store.log)
  {
    hide ProcOk, Made;
    forall k | 0 <= k < |s.store.log| ensures AdvancesAt(s.store.log, k) {
      assert EffectOk(s, s.store.log[k]);
    }
  }

  // ---- Single consumption ----------------------------------------------------------

  /** Within one incarnation a version is acknowledged to at most one call. */
  lemma VersionAckedOnce(events: seq<Event>, p: nat, c: Control, q: nat, d: Control)
    requires Disciplined(events)
    requires Outcomes(End(events), p) == Some(Acked(c)) && Outcomes(End(events), q) == Some(Acked(d))
    requires c.era == d.era && c.rank == d.rank
    ensures p == q && c == d
  {
    hide Made;
    var s := End(events);
    var log := s.store.log;
    ReachInv(events, |events|);
    OwnFact(s, p);
    OwnFact(s, q);
    VersionsAdvance(s);
    var j :| 0 <= j < |log| && OpenAt(log, j) && log[j].who == p && log[j].cell == c;
    var k :| 0 <= k < |log| && OpenAt(log, k) && log[k].who == q && log[k].cell == d;
    OpenRanksGrow(log, j, k);
  }

  /** What an acknowledged compare-exchange published: the next version of what it was shown. */
  lemma AckedSucceeds(events: seq<Event>, p: nat, c: Control)
    requires Disciplined(events) && Outcomes(End(events), p) == Some(Acked(c))
    ensures var call := End(events).procs[p].call; Made(p, call, c) && RankRule(Over(call), c)
  {
    var s := End(events);
    ReachInv(events, |events|);
    OwnFact(s, p);
    var log := s.store.log;
    var j :| 0 <= j < |log| && OpenAt(log, j) && log[j].who == p && log[j].cell == c;
    assert EffectOk(s, log[j]);
  }

  /** Each entity tag authorises at most one acknowledged compare-exchange. */
  lemma TagConsumedOnce(events: seq<Event>, p: nat, c: Control, q: nat, d: Control)
    requires Disciplined(events)
    requires Outcomes(End(events), p) == Some(Acked(c)) && Outcomes(End(events), q) == Some(Acked(d))
    requires var s := End(events);
      && s.procs[p].call.CompareExchange? && s.procs[q].call.CompareExchange?
      && s.procs[p].call.expected == s.procs[q].call.expected
    ensures p == q && c == d
  {
    hide Made;
    AckedSucceeds(events, p, c);
    AckedSucceeds(events, q, d);
    VersionAckedOnce(events, p, c, q, d);
  }

  /** While its incarnation is open, a control is only ever replaced, by its next version. */
  lemma OpenVersionsStepByOne(events: seq<Event>, i: nat)
    requires Disciplined(events) && i < |events|
    requires var a, b := Reach(events, i), Reach(events, i + 1);
      a.store.cell.Some? && a.store.cell.value.era == Era(a.store) && b.store.cell != a.store.cell
    ensures var c, b := Reach(events, i).store.cell.value, Reach(events, i + 1);
      b.store.cell.Some? && b.store.cell.value.era == c.era && b.store.cell.value.rank == c.rank + 1
  {
    hide Made, ProcOk;
    var a, b := Reach(events, i), Reach(events, i + 1);
    ReachInv(events, i);
    ReachInv(events, i + 1);
    ReachStep(events, i);
    EventIsOneEffect(a, events[i]);
    StandingControl(a);
    var k := |a.store.log|;
    if |b.store.log| > k {
      assert LegalAt(b.store.log, k);
      assert EffectOk(b, b.store.log[k]);
    }
  }

  // ---- Closed incarnations ------------------------------------------------------------

  ghost predicate Barred(s: State, p: nat) {
    && p in s.procs && s.procs[p].call.CompareExchange? && s.procs[p].call.expected.era < Era(s.store)
    && (s.procs[p].pc.CasRead? || s.procs[p].pc.CasGate?
        || (s.procs[p].pc.Finished? && !s.procs[p].pc.outcome.Acked?))
  }

  /** A barred call only reads, and neither of its reads lets it past the gate. */
  lemma BarredReads(s: State, p: nat, proc: Proc, turn: Turn)
    requires Fits(proc) && (proc.pc.CasRead? || proc.pc.CasGate?) && proc.call.expected.era < Era(s.store)
    ensures WriteAt(p, proc, turn).None?
    ensures var pc := Look(s, p, proc, turn); pc.CasGate? || (pc.Finished? && !pc.outcome.Acked?)
  {
    hide Bound;
  }

  lemma BarredStays(s: State, e: Event, p: nat)
    requires Inv(s) && Barred(s, p) && !e.RawDelete?
    ensures Barred(Next(s, e), p)
  {
    hide Inv;
    NextKeeps(s, e);
    hide Send, Land, WriteAt, Resume, Look, Bound;
    if e.Move? && e.p == p && Fits(s.procs[p]) && !s.procs[p].pc.Finished? {
      BarredReads(s, p, s.procs[p], e.turn);
    } else if e.Move? && e.p in s.procs {
      OthersUntouched(s, e.p, e.turn, p);
    } else if e.Late? && e.k < |s.floating| {
      LandLeavesProcs(s, s.floating[e.k]);
    }
  }

  lemma LandLeavesProcs(s: State, r: Request)
    ensures Land(s, r).procs == s.procs
  {
  }

  lemma OthersUntouched(s: State, p: nat, turn: Turn, q: nat)
    requires p in s.procs && q in s.procs && (p != q || !Fits(s.procs[p]) || s.procs[p].pc.Finished?)
    ensures q in Step(s, p, turn).procs && Step(s, p, turn).procs[q] == s.procs[q]
  {
    hide Land, Fits, WriteAt, Resume, Look, Answer, IfMatch;
    if Fits(s.procs[p]) && WriteAt(p, s.procs[p], turn).Some? {
      LandLeavesProcs(s, WriteAt(p, s.procs[p], turn).value);
    }
  }

  lemma StaleTagIsBarred(s: State, e: Event, p: nat)
    requires p !in s.procs && p in Next(s, e).procs
    requires var call := Next(s, e).procs[p].call; call.CompareExchange? && call.expected.era < Era(Next(s, e).store)
    ensures Barred(Next(s, e), p)
  {
    hide Fits, WriteAt, Look, Resume;
  }

  /**
   A tag of a destroyed incarnation never authorises an acknowledged compare-exchange, even when the
   same payload stands again: once the counter is past it, such a call never gets beyond its gate.
  */
  lemma {:induction false} StaleTagNeverAcked(events: seq<Event>, m: nat, n: nat, p: nat)
    requires m <= n <= |events| && Disciplined(events)
    requires p !in Reach(events, m).procs && p in Reach(events, n).procs
    requires var call := Reach(events, n).procs[p].call;
      call.CompareExchange? && call.expected.era < Era(Reach(events, m).store)
    ensures Barred(Reach(events, n), p)
    decreases n
  {
    hide Inv, ProcOk, Next;
    if m < n {
      var a := Reach(events, n - 1);
      ReachStep(events, n - 1);
      ReachInv(events, n - 1);
      ReachAdvances(events, m, n - 1);
      NextKeeps(a, events[n - 1]);
      if p in a.procs {
        StaleTagNeverAcked(events, m, n - 1, p);
        BarredStays(a, events[n - 1], p);
      } else {
        StaleTagIsBarred(a, events[n - 1], p);
      }
    }
  }

  // ---- The commit oracle ----------------------------------------------------------------

  /** Row 1: when the oracle says landed, an event of the run was this call's own control PUT. */
  lemma LandedIsOurs(events: seq<Event>, p: nat, b: Bind) returns (i: nat)
    requires Disciplined(events) && p in End(events).procs
    requires var proc := End(events).procs[p];
      proc.pc == OracleRead(b) && Fits(proc) && Adjudicate(End(events), p, proc, b) == Recheck(b)
    ensures i < |events|
    ensures var c := Target(p, End(events).procs[p].call, b);
      LandsAt(events, i, p, c, Era(Reach(events, i).store)) && End(events).store.cell == Some(c)
  {
    var s := End(events);
    var proc := s.procs[p];
    ReachInv(events, |events|);
    StandingControl(s);
    AdjudicateOk(s, p, proc, b);
    var j := |s.store.log| - 1;
    i := EffectHappened(events, |events|, j);
  }

  /**
   The oracle's three rows are exact: landed if and only if this call's own control stands, lost if and only
   if the bound generation stands under another control, and undecided otherwise.
  */
  lemma OracleExact(events: seq<Event>, p: nat, b: Bind)
    requires Disciplined(events) && p in End(events).procs && End(events).procs[p].pc == OracleRead(b)
    ensures var s := End(events); var proc := s.procs[p];
      && Writes(proc.call) && proc.call.content.Chunked?
      && var c, pc := Target(p, proc.call, b), Adjudicate(s, p, proc, b);
         && (pc == Recheck(b) <==> s.store.cell == Some(c))
         && (pc == Finished(LostConflict(c)) <==>
               s.store.cell.Some? && s.store.cell.value.era == b.era && s.store.cell.value.rank == b.version
               && s.store.cell.value != c)
         && (pc == Recheck(b) || pc == Finished(LostConflict(c)) || pc == Finished(Unavailable))
  {
    var s := End(events);
    ReachInv(events, |events|);
    OwnFact(s, p);
    StandingControl(s);
    hide Inv, EntriesOf;
  }

  lemma FinishedStays(s: State, e: Event, p: nat)
    requires p in s.procs && s.procs[p].pc.Finished?
    ensures p in Next(s, e).procs && Next(s, e).procs[p] == s.procs[p]
  {
    hide Fits, Send, Land, WriteAt, Resume, Look;
    if e.Move? && e.p in s.procs {
      OthersUntouched(s, e.p, e.turn, p);
    } else if e.Late? && e.k < |s.floating| {
      LandLeavesProcs(s, s.floating[e.k]);
    }
  }

  lemma {:induction false} OutcomeStays(events: seq<Event>, m: nat, n: nat, p: nat)
    requires m <= n <= |events| && Outcomes(Reach(events, m), p).Some?
    ensures Outcomes(Reach(events, n), p) == Outcomes(Reach(events, m), p)
    decreases n
  {
    hide Next;
    if m < n {
      OutcomeStays(events, m, n - 1, p);
      ReachStep(events, n - 1);
      FinishedStays(Reach(events, n - 1), events[n - 1], p);
    }
  }

  /**
   Row 2: when the oracle has said lost, this call's control has not landed, and does not land later by
   a delayed delivery either, at any instant at which the counter still names the bound incarnation.
  */
  lemma LostConflictIsFinal(events: seq<Event>, m: nat, n: nat, p: nat, c: Control)
    requires Disciplined(events) && m <= n <= |events|
    requires Outcomes(Reach(events, m), p) == Some(LostConflict(c)) && Era(Reach(events, n).store) == c.era
    ensures !LandedBy(Reach(events, n).store.log, p, c)
    ensures Reach(events, n).store.cell != Some(c)
  {
    var s := Reach(events, n);
    OutcomeStays(events, m, n, p);
    ReachInv(events, n);
    OwnFact(s, p);
    InvStore(s);
    StandingControl(s);
    VersionsAdvance(s);
    assert Displaced(s.store.log, c);
    hide Inv, ProcOk, Made, Displaced, LandedBy, Reach, Outcomes, Advancing;
    DisplacedNeverLanded(s.store, c);
    assert !LandedBy(s.store.log, p, c) by { NotByAnyone(s.store.log, p, c); }
  }

  /** A displaced control of the open incarnation is nowhere in the log. */
  lemma DisplacedNeverLanded(st: Store<Body>, c: Control)
    requires StoreInv(st) && Advancing(st.log) && Displaced(st.log, c) && Era(st) == c.era
    ensures forall j :: 0 <= j < |st.log| && st.log[j].Wrote? ==> st.log[j].cell != c
  {
    var log := st.log;
    var k :| 0 <= k < |log| && OpenAt(log, k) && log[k].cell.era == c.era && log[k].cell.rank == c.rank
             && log[k].cell != c;
    forall j | 0 <= j < |log| && log[j].Wrote? && log[j].cell.era == c.era && log[j].cell.rank == c.rank
      ensures j == k
    {
      assert LegalAt(log, j);
      LaterAt(log, j, |log| - 1);
      assert OpenAt(log, j);
      OpenRanksGrow(log, j, k);
    }
  }

  lemma NotByAnyone(log: Log, p: nat, c: Control)
    requires forall j :: 0 <= j < |log| && log[j].Wrote? ==> log[j].cell != c
    ensures !LandedBy(log, p, c)
  {
  }
}
