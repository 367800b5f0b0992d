/**
 What the answers of value calls mean.  Every outcome of every call, under any interference, is traced to
 what the call itself met at one of its own steps.
*/
module ValueAnswers {
  import opened Basics
  import opened EraStore
  import opened Values
  import opened ValueProofs
  import opened ValueTheorems
  import opened ValueGc

  /** What a call can meet at one of its steps. */
  datatype Sight =
    | Occupied                            // the key held a control
    | Standing(control: Control)          // it held this one
    | Without(control: Control)           // it did not hold this one
    | EraIs(era: nat)
    | EraNot(era: nat)
    | CounterFull
    | AboveFloor                          // the key was not retired
    | Gated                               // past staging, the counter still named the bound era
    | FenceUp
    | FenceDown
    | NothingListed
    | TurnedDown                          // a conditional request of the call did not apply
    | Spurious                            // the store refused a request although its tag agreed
    | Undelivered                         // a request or its reply was lost
    | Loaded(cell: Option<Control>)       // what a destroy found at the key
    | Emptied                             // the step left the key empty
    | Planted                             // the call's own control was put
    | Vacated                             // withdrawing it, the call left the key empty
    | Recalled                            // an exchange's own control no longer stood

  ghost predicate Shows(s: State, p: nat, turn: Turn, sight: Sight)
    requires p in s.procs && Fits(s.procs[p])
  {
    match sight
    case Occupied => s.store.cell.Some?
    case Standing(c) => s.store.cell == Some(c)
    case Without(c) => s.store.cell != Some(c)
    case EraIs(e) => Era(s.store) == e
    case EraNot(e) => Era(s.store) != e
    case CounterFull => Era(s.store) >= U64_MAX
    case AboveFloor => !s.retired
    case Gated =>
      s.procs[p].pc.CommitGate? && Era(s.store) == s.procs[p].pc.b.era && (turn.net.Deliver? || turn.net.Refuse?)
    case FenceUp => s.fence
    case FenceDown => !s.fence
    case NothingListed => turn.page == {}
    case TurnedDown =>
      var r := WriteAt(p, s.procs[p], turn); r.Some? && Answer(s, r.value) != Done
    case Spurious => turn.net.Refuse?
    case Undelivered => turn.net.LoseRequest? || turn.net.LoseReply?
    case Loaded(cell) => s.procs[p].pc.DestroyLoad? && cell == s.store.cell && (turn.net.Deliver? || turn.net.Refuse?)
    case Emptied => Step(s, p, turn).store.cell.None?
    case Planted => s.procs[p].pc.Put? && Step(s, p, turn).store != s.store
    case Vacated => (s.procs[p].pc.Reread? || s.procs[p].pc.Evict?) && Step(s, p, turn).store.cell.None?
    case Recalled =>
      s.procs[p].pc.Retire? && Step(s, p, turn).store.cell != Some(Target(p, s.procs[p].call, s.procs[p].pc.b))
  }

  /** Event `i` is a step of call `p`. */
  ghost predicate Acts(events: seq<Event>, i: nat, p: nat)
    requires i < |events|
  {
    && events[i].Move? && events[i].p == p && p in Reach(events, i).procs
    && Fits(Reach(events, i).procs[p]) && !Reach(events, i).procs[p].pc.Finished?
  }

  ghost predicate SawAt(events: seq<Event>, i: nat, p: nat, sight: Sight)
    requires i < |events|
  {
    Acts(events, i, p) && Shows(Reach(events, i), p, events[i].turn, sight)
  }

  /** Everything call `p` met in the first `n` events. */
  ghost function Met(events: seq<Event>, n: nat, p: nat): iset<Sight>
    requires n <= |events|
  {
    iset sight: Sight | SawBefore(events, n, p, sight)
  }

  ghost predicate SawBefore(events: seq<Event>, n: nat, p: nat, sight: Sight)
    requires n <= |events|
  {
    exists i :: 0 <= i < n && SawAt(events, i, p, sight)
  }

  /** The counter moved during the call. */
  ghost predicate Moved(k: iset<Sight>) { exists e :: EraIs(e) in k && EraNot(e) in k }

  ghost predicate LoadedOnly(k: iset<Sight>, x: Option<Option<Control>>) {
    forall y :: Loaded(y) in k <==> x == Some(y)
  }

  /** The destroy has closed what it found. */
  ghost predicate Closed(s: State, c: Control) { s.store.tomb.Some? && c.era < Era(s.store) }

  // ---- What an answer means ------------------------------------------------------------

  ghost predicate OutcomeTold(s: State, call: Call, o: Outcome, k: iset<Sight>) {
    match o
    case Acked(_) => Writes(call) && (call.CompareExchange? && call.content.Chunked? ==> Gated in k)
    case AlreadyExists => call.Create? && Occupied in k
    case PreconditionFailed =>
      || (call.CompareExchange? && (Without(call.expected) in k || Spurious in k))
      || (call.Destroy? && exists c ::
          LoadedOnly(k, Some(Some(c))) && Closed(s, c) && (Without(c) in k || Spurious in k))
    case LostConflict(c) =>
      && Undelivered in k && AboveFloor in k && Writes(call) && call.content.Chunked?
      && exists d :: Standing(d) in k && d.era == c.era && d.rank == c.rank && d != c
    case StaleIncarnation =>
      if call.CompareExchange? then EraNot(call.expected.era) in k
      else call.Create? && call.content.Chunked? && call.content.streamed && Moved(k)
    case VersionExhausted =>
      (call.CompareExchange? && call.expected.rank >= U64_MAX) || (call.Destroy? && CounterFull in k)
    case ChunkCountInvalid =>
      && Writes(call) && call.content.Chunked? && call.content.streamed
      && !(MIN_CHUNKS <= |call.content.chunks| <= MAX_CHUNKS)
    case ChunkIntegrity => false
    case Fenced => Writes(call) && call.content.Chunked? && call.content.streamed && FenceUp in k
    case NotFenced => call.Sweep? && FenceDown in k
    case Unavailable => Undelivered in k || TurnedDown in k || Spurious in k || Moved(k)
    case Destroyed =>
      && call.Destroy? && Emptied in k
      && (LoadedOnly(k, Some(None)) || exists c :: LoadedOnly(k, Some(Some(c))) && Closed(s, c))
    case Swept => call.Sweep? && FenceUp in k && NothingListed in k
    case Crashed => true
  }

  /**
   What becomes of the call's own control.  An exchange that put it answers neither that it lost the key nor
   that its argument was at fault, and calls itself stale only once the control no longer stood; a create
   tries again, or gives up for want of a steady era, only after leaving the key empty.
  */
  ghost predicate PublicationTold(call: Call, o: Outcome, k: iset<Sight>) {
    && (call.CompareExchange? && Planted in k ==>
          || o.Acked? || o.Unavailable? || o.Crashed? || o.LostConflict?
          || (o.StaleIncarnation? && (Recalled in k || Spurious in k)))
    && (call.Create? && o.StaleIncarnation? ==> Vacated in k)
    && (call.Create? && o.Unavailable? ==> Undelivered in k || TurnedDown in k || Spurious in k || Vacated in k)
  }

  ghost predicate OwnTold(proc: Proc, k: iset<Sight>) {
    && (proc.call.CompareExchange? && BeforePut(proc.pc) ==> Planted !in k)
    && (proc.pc.Stamp? && proc.pc.left < ATTEMPTS ==> Vacated in k)
    && (proc.pc.Finished? ==> PublicationTold(proc.call, proc.pc.outcome, k))
  }

  predicate BeforePut(pc: Pc) {
    pc.CasRead? || pc.CasGate? || pc.FenceRead? || pc.Staging? || pc.CommitGate? || pc.Put?
  }

  /** What a call carries with it on the way there. */
  ghost predicate PcTold(s: State, p: nat, proc: Proc, k: iset<Sight>) {
    && (proc.call.Create? && BoundPc(proc.pc) ==> EraIs(proc.pc.b.era) in k)
    && (proc.call.CompareExchange? && BoundPc(proc.pc) ==> proc.pc.b.era == proc.call.expected.era)
    && (proc.call.CompareExchange? && proc.call.content.Chunked? && PastGate(proc.pc) ==> Gated in k)
    && (proc.call.Destroy? ==>
          match proc.pc
          case DestroyLoad => LoadedOnly(k, None)
          case TombPut(c) => LoadedOnly(k, Some(Some(c)))
          case BumpRead(c, _) => LoadedOnly(k, Some(Some(c)))
          case BumpPut(c, _, _) => LoadedOnly(k, Some(Some(c)))
          case TailDelete(c) => LoadedOnly(k, Some(Some(c))) && Closed(s, c)
          case _ => true)
    && match proc.pc
       case Stamp(left) => left < ATTEMPTS ==> Moved(k)
       case FenceRead(_) => Writes(proc.call) && proc.call.content.Chunked? && proc.call.content.streamed
       case Staging(_, phases) =>
         forall i :: 0 <= i < |phases| && phases[i].ToVerify? ==> TurnedDown in k || Spurious in k || Undelivered in k
       case OracleFloor(_) => Undelivered in k
       case OracleRead(_) => Undelivered in k && AboveFloor in k
       case Reread(b) => EraNot(b.era) in k
       case Evict(b) => EraNot(b.era) in k && Occupied in k
       case Retire(b) => EraNot(b.era) in k
       case SweepList => FenceUp in k
       case SweepFloor(_) => FenceUp in k
       case SweepControl(_) => FenceUp in k
       case SweepDelete(_) => FenceUp in k
       case Finished(o) => OutcomeTold(s, proc.call, o, k)
       case _ => true
  }

  predicate BoundPc(pc: Pc) {
    pc.FenceRead? || pc.Staging? || pc.CommitGate? || pc.Put? || pc.OracleFloor? || pc.OracleRead? || pc.Recheck?
    || pc.Reread? || pc.Evict? || pc.Retire?
  }

  predicate PastGate(pc: Pc) { pc.Put? || pc.OracleFloor? || pc.OracleRead? || pc.Recheck? || pc.Retire? }

  // ---- Chunks are what their addresses say -----------------------------------------------

  /** Stored under its own digest, or on its way there. */
  ghost predicate Genuine(s: State) {
    Authentic(s.chunks)
    && forall k :: 0 <= k < |s.floating| && s.floating[k].PutChunk? ==>
      s.floating[k].addr.digest == ChunkSha(s.floating[k].bytes)
  }

  lemma LandGenuine(s: State, r: Request)
    requires Genuine(s) && (r.PutChunk? ==> r.addr.digest == ChunkSha(r.bytes))
    ensures Genuine(Land(s, r)) && Genuine(s.(floating := s.floating + [r]))
  {
    hide Apply;
  }

  lemma WritesGenuine(p: nat, proc: Proc, turn: Turn)
    requires Fits(proc)
    ensures var r := WriteAt(p, proc, turn); r.Some? && r.value.PutChunk? ==>
      r.value.addr.digest == ChunkSha(r.value.bytes)
  {
    hide Target;
  }

  lemma NextGenuine(s: State, e: Event)
    requires Genuine(s)
    ensures Genuine(Next(s, e))
  {
    hide WriteAt, Resume, Look, Land, Answer, IfMatch;
    match e
    case Late(k) => if k < |s.floating| { LandGenuine(s, s.floating[k]); }
    case Move(p, turn) =>
      if p in s.procs && Fits(s.procs[p]) {
        WritesGenuine(p, s.procs[p], turn);
        var r := WriteAt(p, s.procs[p], turn);
        if r.Some? { LandGenuine(s, r.value); }
      }
    case _ =>
  }

  lemma {:induction false} RunGenuine(events: seq<Event>, n: nat)
    requires n <= |events|
    ensures Genuine(Reach(events, n))
  {
    hide Next;
    if n == 0 {
      NothingYet(events);
    } else {
      RunGenuine(events, n - 1);
      ReachStep(events, n - 1);
      NextGenuine(Reach(events, n - 1), events[n - 1]);
    }
  }

  // ---- One step --------------------------------------------------------------------------

  /** What the call met by the end of its step. */
  ghost predicate Learns(s: State, p: nat, turn: Turn, k: iset<Sight>, l: iset<Sight>)
    requires p in s.procs && Fits(s.procs[p])
  {
    forall sight :: sight in l <==> sight in k || Shows(s, p, turn, sight)
  }

  lemma ReadLeavesStore(s: State, p: nat, turn: Turn)
    requires p in s.procs && Fits(s.procs[p]) && WriteAt(p, s.procs[p], turn).None?
    ensures Step(s, p, turn).store == s.store
  {
    hide Look;
  }

  lemma ReadBinding(s: State, p: nat, proc: Proc, turn: Turn, k: iset<Sight>, l: iset<Sight>)
    requires p in s.procs && proc == s.procs[p] && ProcOk(s, p, proc) && PcTold(s, p, proc, k)
    requires (proc.pc.Stamp? || proc.pc.CasRead? || proc.pc.CasGate?) && Learns(s, p, turn, k, l)
    ensures PcTold(s, p, proc.(pc := Look(s, p, proc, turn)), l)
  {
    hide Target, Step, Answer, Adjudicate, Retry, WriteAt, Verified, Staged;
    assert EraIs(Era(s.store)) in l;
  }

  lemma ReadGate(s: State, p: nat, proc: Proc, turn: Turn, k: iset<Sight>, l: iset<Sight>)
    requires p in s.procs && proc == s.procs[p] && ProcOk(s, p, proc) && PcTold(s, p, proc, k)
    requires (proc.pc.FenceRead? || proc.pc.CommitGate?) && Learns(s, p, turn, k, l)
    ensures PcTold(s, p, proc.(pc := Look(s, p, proc, turn)), l)
  {
    hide Target, Step, Answer, Adjudicate, Retry, WriteAt, Verified, Staged, Bound;
  }

  lemma ReadStaging(s: State, p: nat, proc: Proc, turn: Turn, k: iset<Sight>, l: iset<Sight>)
    requires p in s.procs && proc == s.procs[p] && ProcOk(s, p, proc) && PcTold(s, p, proc, k)
    requires proc.pc.Staging? && WriteAt(p, proc, turn).None? && Learns(s, p, turn, k, l)
    requires Genuine(s)
    ensures PcTold(s, p, proc.(pc := Look(s, p, proc, turn)), l)
  {
    hide Target, Step, Answer, Adjudicate, Retry;
  }

  lemma ReadOracle(s: State, p: nat, proc: Proc, turn: Turn, k: iset<Sight>, l: iset<Sight>)
    requires p in s.procs && proc == s.procs[p] && ProcOk(s, p, proc) && PcTold(s, p, proc, k)
    requires (proc.pc.OracleFloor? || proc.pc.OracleRead?) && Learns(s, p, turn, k, l)
    ensures PcTold(s, p, proc.(pc := Look(s, p, proc, turn)), l)
  {
    hide EntriesOf, Step, Answer, StartStaging, Staged, Verified, WriteAt, LandedBy, Retry, Bound;
    if s.store.cell.Some? { assert Standing(s.store.cell.value) in l; }
  }

  lemma ReadRecheck(s: State, p: nat, proc: Proc, turn: Turn, k: iset<Sight>, l: iset<Sight>)
    requires p in s.procs && proc == s.procs[p] && ProcOk(s, p, proc) && PcTold(s, p, proc, k)
    requires (proc.pc.Recheck? || proc.pc.Reread?) && Learns(s, p, turn, k, l)
    ensures PcTold(s, p, proc.(pc := Look(s, p, proc, turn)), l)
  {
    hide Target, Step, Answer, StartStaging, Staged, Verified, WriteAt, LandedBy, Adjudicate, Bound;
    if proc.pc.Reread? { assert EraNot(proc.pc.b.era) in l && EraIs(proc.pc.b.era) in l; }
  }

  lemma ReadDestroying(s: State, p: nat, proc: Proc, turn: Turn, k: iset<Sight>, l: iset<Sight>)
    requires p in s.procs && proc == s.procs[p] && ProcOk(s, p, proc) && PcTold(s, p, proc, k)
    requires (proc.pc.DestroyLoad? || proc.pc.BumpRead?) && Learns(s, p, turn, k, l)
    requires WriteAt(p, proc, turn).None?
    ensures PcTold(s, p, proc.(pc := Look(s, p, proc, turn)), l)
  {
    LearnsLoaded(s, p, turn, k, l);
    hide Learns, Step, Target, Answer, StartStaging, Staged, Verified, Adjudicate, Retry, Bound, WriteAt, BindOk,
      OutcomeOk;
  }

  /** What a destroy learns by reading. */
  lemma LearnsLoaded(s: State, p: nat, turn: Turn, k: iset<Sight>, l: iset<Sight>)
    requires p in s.procs && Fits(s.procs[p]) && WriteAt(p, s.procs[p], turn).None? && Learns(s, p, turn, k, l)
    ensures s.store.cell.None? ==> Emptied in l
    ensures turn.net.LoseRequest? || turn.net.LoseReply? ==> Undelivered in l
    ensures Era(s.store) >= U64_MAX ==> CounterFull in l
    ensures forall y :: Loaded(y) in l <==>
      (Loaded(y) in k
       || (s.procs[p].pc.DestroyLoad? && y == s.store.cell && (turn.net.Deliver? || turn.net.Refuse?)))
  {
    ReadLeavesStore(s, p, turn);
    hide Step, WriteAt, Fits, Answer;
  }

  lemma ReadSweeping(s: State, p: nat, proc: Proc, turn: Turn, k: iset<Sight>, l: iset<Sight>)
    requires p in s.procs && proc == s.procs[p] && ProcOk(s, p, proc) && PcTold(s, p, proc, k)
    requires proc.call.Sweep? && !proc.pc.Finished? && Learns(s, p, turn, k, l)
    ensures PcTold(s, p, proc.(pc := Look(s, p, proc, turn)), l)
  {
    hide Target, Step, Answer, StartStaging, Staged, Verified, Adjudicate, Retry, Bound, References, WriteAt;
  }

  // ---- Writes ------------------------------------------------------------------------------

  /** What the reply to a request teaches the call that sent it. */
  ghost predicate Taught(r: Request, reply: Reply, k: iset<Sight>, l: iset<Sight>) {
    && (forall sight :: sight in k ==> sight in l)
    && (forall y :: Loaded(y) in l ==> Loaded(y) in k)
    && (reply.Lost? ==> Undelivered in l) && (reply.Missing? ==> r.Guarded? && r.write.DeleteCell?)
    && (reply.Refused? || reply.Missing? ==> TurnedDown in l || Spurious in l)
    && (r.Guarded? && reply.Refused? ==>
          match r.write
          case PutCell(_, _, None) => Occupied in l
          case PutCell(_, _, Some(c)) => Without(c) in l || Spurious in l
          case DeleteCell(c) => Without(c) in l || Spurious in l
          case _ => true)
    && (r.Guarded? && r.write.DeleteCell? && (reply.Done? || reply.Missing?) ==> Emptied in l)
  }

  lemma ReplyTeaches(s: State, p: nat, turn: Turn, k: iset<Sight>, l: iset<Sight>)
    requires p in s.procs && Fits(s.procs[p]) && !s.procs[p].pc.Finished? && Learns(s, p, turn, k, l)
    requires WriteAt(p, s.procs[p], turn).Some?
    ensures var r := WriteAt(p, s.procs[p], turn).value; Taught(r, Send(s, r, turn.net).1, k, l)
  {
    var r := WriteAt(p, s.procs[p], turn).value;
    var (t, reply) := Send(s, r, turn.net);
    StepSends(s, p, turn);
    ReplyMeans(s, r, turn.net);
    LearnsWriting(s, p, turn, k, l);
    hide Learns, Shows, Resume, Look, WriteAt, Fits, Step, Send, Answer, IfMatch;
  }

  /** What a call learns by writing. */
  lemma LearnsWriting(s: State, p: nat, turn: Turn, k: iset<Sight>, l: iset<Sight>)
    requires p in s.procs && Fits(s.procs[p]) && !s.procs[p].pc.DestroyLoad? && Learns(s, p, turn, k, l)
    requires WriteAt(p, s.procs[p], turn).Some?
    ensures (forall sight :: sight in k ==> sight in l) && (forall y :: Loaded(y) in l ==> Loaded(y) in k)
    ensures turn.net.LoseRequest? || turn.net.LoseReply? ==> Undelivered in l
    ensures turn.net.Refuse? ==> Spurious in l
    ensures Answer(s, WriteAt(p, s.procs[p], turn).value) != Done ==> TurnedDown in l
    ensures s.store.cell.Some? ==> Occupied in l
    ensures forall c :: s.store.cell != Some(c) ==> Without(c) in l
    ensures Step(s, p, turn).store.cell.None? ==> Emptied in l
  {
    hide WriteAt, Fits, Step, Answer;
  }

  lemma StepSends(s: State, p: nat, turn: Turn)
    requires p in s.procs && Fits(s.procs[p]) && !s.procs[p].pc.Finished? && WriteAt(p, s.procs[p], turn).Some?
    ensures Step(s, p, turn).store == Send(s, WriteAt(p, s.procs[p], turn).value, turn.net).0.store
    ensures !s.procs[p].pc.DestroyLoad?
  {
    hide Send, Resume;
  }

  lemma ReplyMeans(s: State, r: Request, net: Net)
    ensures var reply := Send(s, r, net).1;
      && (reply.Lost? <==> net.LoseRequest? || net.LoseReply?) && (reply.Missing? ==> r.Guarded? && r.write.DeleteCell?)
      && (reply.Refused? || reply.Missing? ==> Answer(s, r) != Done || net.Refuse?)
      && (r.Guarded? && reply.Refused? && r.write.PutCell? ==>
            s.store.cell != r.write.over || (net.Refuse? && r.write.over.Some?))
      && (r.Guarded? && reply.Refused? && r.write.DeleteCell? ==> s.store.cell != Some(r.write.cell) || net.Refuse?)
      && (r.Guarded? && r.write.DeleteCell? && (reply.Done? || reply.Missing?) ==> Send(s, r, net).0.store.cell.None?)
  {
    hide Land;
    if r.Guarded? && r.write.DeleteCell? { DeleteEmpties(s, r, net); }
  }

  lemma DeleteEmpties(s: State, r: Request, net: Net)
    requires r.Guarded? && r.write.DeleteCell?
    ensures var (t, reply) := Send(s, r, net); reply.Done? || reply.Missing? ==> t.store.cell.None?
  {
  }

  /** The destroy's steps. */
  lemma ResumeDestroying(t: State, p: nat, proc: Proc, turn: Turn, r: Request, reply: Reply, k: iset<Sight>,
      l: iset<Sight>)
    requires proc.call.Destroy? && !proc.pc.Finished? && PcTold(t, p, proc, k) && Fits(proc)
    requires WriteAt(p, proc, turn) == Some(r) && Taught(r, reply, k, l)
    requires ProcOk(t, p, proc.(pc := Resume(proc, turn, reply))) && StoreInv(t.store)
    ensures PcTold(t, p, proc.(pc := Resume(proc, turn, reply)), l)
  {
    hide Target, OutcomeOk, Legal;
  }

  lemma ResumeWriting(t: State, p: nat, proc: Proc, turn: Turn, r: Request, reply: Reply, k: iset<Sight>,
      l: iset<Sight>)
    requires !proc.call.Destroy? && !proc.pc.Staging? && !proc.pc.Finished? && PcTold(t, p, proc, k) && Fits(proc)
    requires WriteAt(p, proc, turn) == Some(r) && Taught(r, reply, k, l) && ProcOk(t, p, proc)
    ensures PcTold(t, p, proc.(pc := Resume(proc, turn, reply)), l)
  {
    hide Target;
    if proc.pc.Evict? { assert EraNot(proc.pc.b.era) in l && EraIs(proc.pc.b.era) in l; }
  }

  lemma ResumeStaging(t: State, p: nat, proc: Proc, turn: Turn, r: Request, reply: Reply, k: iset<Sight>,
      l: iset<Sight>)
    requires proc.pc.Staging? && PcTold(t, p, proc, k) && Fits(proc)
    requires WriteAt(p, proc, turn) == Some(r) && Taught(r, reply, k, l)
    ensures PcTold(t, p, proc.(pc := Resume(proc, turn, reply)), l)
  {
  }

  // ---- The call's own control -----------------------------------------------------------------

  /** Where a read can lead, as far as the call's own control is concerned. */
  lemma LookOwn(s: State, p: nat, proc: Proc, turn: Turn)
    requires Fits(proc) && !proc.pc.Finished? && WriteAt(p, proc, turn).None?
    ensures var pc, lost, withdrawn := Look(s, p, proc, turn), turn.net.LoseRequest? || turn.net.LoseReply?,
                                       proc.pc.Reread? && s.store.cell.None?;
      && !proc.pc.Put?
      && (BeforePut(pc) && proc.call.CompareExchange? ==> BeforePut(proc.pc))
      && (pc.Stamp? ==> withdrawn)
      && (pc.Finished? && proc.call.CompareExchange? && !BeforePut(proc.pc) ==>
            pc.outcome.Acked? || pc.outcome.Unavailable? || pc.outcome.LostConflict?)
      && (pc.Finished? && proc.call.Create? ==>
            && (pc.outcome.StaleIncarnation? ==> withdrawn)
            && (pc.outcome.Unavailable? ==>
                  || lost || withdrawn || proc.pc.OracleFloor? || proc.pc.OracleRead?
                  || (proc.pc.Staging? && exists i :: 0 <= i < |proc.pc.phases| && proc.pc.phases[i].ToVerify?)))
  {
    hide Target;
  }

  /** What a call learns of its own control by reading. */
  lemma LearnsOwn(s: State, p: nat, turn: Turn, k: iset<Sight>, l: iset<Sight>)
    requires p in s.procs && Fits(s.procs[p]) && WriteAt(p, s.procs[p], turn).None? && Learns(s, p, turn, k, l)
    ensures forall sight :: sight in k ==> sight in l
    ensures s.procs[p].pc.Reread? && s.store.cell.None? ==> Vacated in l
    ensures Planted in l ==> Planted in k || s.procs[p].pc.Put?
    ensures turn.net.LoseRequest? || turn.net.LoseReply? ==> Undelivered in l
  {
    ReadLeavesStore(s, p, turn);
    hide Step, WriteAt, Fits, Answer;
  }

  lemma ReadOwn(s: State, p: nat, turn: Turn, k: iset<Sight>, l: iset<Sight>)
    requires p in s.procs && !s.procs[p].pc.Finished? && PcTold(s, p, s.procs[p], k) && OwnTold(s.procs[p], k)
    requires Fits(s.procs[p]) && WriteAt(p, s.procs[p], turn).None? && Learns(s, p, turn, k, l)
    ensures OwnTold(s.procs[p].(pc := Look(s, p, s.procs[p], turn)), l)
  {
    LearnsOwn(s, p, turn, k, l);
    LookOwn(s, p, s.procs[p], turn);
    hide Look, Learns, WriteAt, Fits, OutcomeTold;
  }

  /** Where a reply can lead, as far as the call's own control is concerned. */
  lemma ResumeOwn(p: nat, proc: Proc, turn: Turn, reply: Reply)
    requires Fits(proc) && !proc.pc.Finished? && WriteAt(p, proc, turn).Some?
    ensures var pc, withdrawn := Resume(proc, turn, reply), proc.pc.Evict? && (reply.Done? || reply.Missing?);
      && (BeforePut(pc) && proc.call.CompareExchange? ==> BeforePut(proc.pc) && !proc.pc.Put?)
      && (pc.Stamp? ==> withdrawn)
      && (pc.Finished? && proc.call.CompareExchange? ==>
            if proc.pc.Put? then (if reply.Lost? then pc.outcome.Unavailable? else !reply.Done?)
            else pc.outcome.Unavailable? || (!reply.Lost? && proc.pc.Retire? && pc.outcome.StaleIncarnation?))
      && (pc.Finished? && proc.call.Create? ==>
            && (pc.outcome.StaleIncarnation? ==> withdrawn)
            && (pc.outcome.Unavailable? ==> reply.Lost? || withdrawn))
  {
    hide Target;
  }

  /** What a call learns of its own control by writing. */
  lemma LearnsOwnWriting(s: State, p: nat, turn: Turn, k: iset<Sight>, l: iset<Sight>)
    requires p in s.procs && Fits(s.procs[p]) && !s.procs[p].pc.Finished? && Learns(s, p, turn, k, l)
    requires WriteAt(p, s.procs[p], turn).Some?
    ensures forall sight :: sight in k ==> sight in l
    ensures turn.net.LoseRequest? || turn.net.LoseReply? ==> Undelivered in l
    ensures turn.net.Refuse? ==> Spurious in l
    ensures var proc, after := s.procs[p], Step(s, p, turn).store;
      && (Planted in l ==> Planted in k || (proc.pc.Put? && after != s.store))
      && (proc.pc.Evict? && after.cell.None? ==> Vacated in l)
      && (proc.pc.Retire? && after.cell != Some(Target(p, proc.call, proc.pc.b)) ==> Recalled in l)
  {
    hide WriteAt, Step, Answer, Target;
  }

  lemma ReplyOwn(s: State, p: nat, turn: Turn)
    requires p in s.procs && Fits(s.procs[p]) && !s.procs[p].pc.Finished? && WriteAt(p, s.procs[p], turn).Some?
    ensures var proc, reply, after :=
        s.procs[p], Send(s, WriteAt(p, s.procs[p], turn).value, turn.net).1, Step(s, p, turn).store;
      && (reply.Lost? ==> turn.net.LoseRequest? || turn.net.LoseReply?)
      && (proc.pc.Put? && (reply.Refused? || reply.Missing?) ==> after == s.store)
      && (proc.pc.Evict? && (reply.Done? || reply.Missing?) ==> after.cell.None?)
      && (proc.pc.Retire? && !reply.Lost? && !turn.net.Refuse? ==>
            after.cell != Some(Target(p, proc.call, proc.pc.b)))
  {
    var proc, r := s.procs[p], WriteAt(p, s.procs[p], turn).value;
    StepSends(s, p, turn);
    if r.Guarded? { PutUnanswered(s, r, turn.net); }
    ReplyMeans(s, r, turn.net);
    WithdrawalGuarded(p, proc, turn);
    hide WriteAt, Step, Answer, Send, Target, Fits;
  }

  lemma WithdrawalGuarded(p: nat, proc: Proc, turn: Turn)
    requires Fits(proc) && WriteAt(p, proc, turn).Some?
    ensures proc.pc.Put? ==> WriteAt(p, proc, turn).value.Guarded? && WriteAt(p, proc, turn).value.write.PutCell?
    ensures proc.pc.Evict? || proc.pc.Retire? ==>
      WriteAt(p, proc, turn) == Some(Guarded(DeleteCell(Target(p, proc.call, proc.pc.b))))
  {
    hide Target;
  }

  /** A conditional request that is refused leaves the store as it was. */
  lemma PutUnanswered(s: State, r: Request, net: Net)
    requires r.Guarded?
    ensures var (t, reply) := Send(s, r, net);
      && (reply.Refused? || reply.Missing? ==> t.store == s.store)
      && (r.write.DeleteCell? && !reply.Lost? && !net.Refuse? ==> t.store.cell != Some(r.write.cell))
  {
  }

  lemma WriteOwn(s: State, p: nat, turn: Turn, k: iset<Sight>, l: iset<Sight>)
    requires p in s.procs && !s.procs[p].pc.Finished? && Fits(s.procs[p]) && OwnTold(s.procs[p], k)
    requires WriteAt(p, s.procs[p], turn).Some? && Learns(s, p, turn, k, l)
    ensures var reply := Send(s, WriteAt(p, s.procs[p], turn).value, turn.net).1;
      OwnTold(s.procs[p].(pc := Resume(s.procs[p], turn, reply)), l)
  {
    var reply := Send(s, WriteAt(p, s.procs[p], turn).value, turn.net).1;
    LearnsOwnWriting(s, p, turn, k, l);
    ReplyOwn(s, p, turn);
    ResumeOwn(p, s.procs[p], turn, reply);
    hide Resume, Learns, WriteAt, Fits, Send, Step;
  }

  // ---- Every step, every run -----------------------------------------------------------------

  /** Being told is kept while the store grows and the call stands still. */
  lemma ToldGrows(s: State, t: State, p: nat, proc: Proc, k: iset<Sight>)
    requires PcTold(s, p, proc, k) && Grows(s.store, t.store)
    ensures PcTold(t, p, proc, k)
  {
  }

  lemma StepTold(s: State, p: nat, turn: Turn, k: iset<Sight>, l: iset<Sight>)
    requires Inv(s) && Genuine(s) && p in s.procs && PcTold(s, p, s.procs[p], k) && !s.procs[p].pc.Finished?
    requires Fits(s.procs[p]) && Learns(s, p, turn, k, l) && OwnTold(s.procs[p], k)
    ensures var t := Step(s, p, turn); p in t.procs && PcTold(t, p, t.procs[p], l) && OwnTold(t.procs[p], l)
  {
    var proc := s.procs[p];
    OwnFact(s, p);
    StepMoves(s, p, turn);
    hide Inv, ProcOk, PcTold, OwnTold, Learns, Genuine, Resume, Look, WriteAt, Send, Step;
    match WriteAt(p, proc, turn)
    case Some(r) =>
      var (t, reply) := Send(s, r, turn.net);
      WriteStepTold(s, p, turn, k, l);
      WriteOwn(s, p, turn, k, l);
      ToldAfter(t, Step(s, p, turn), p, proc.(pc := Resume(proc, turn, reply)), l);
    case None =>
      ReadTold(s, p, turn, k, l);
      ReadOwn(s, p, turn, k, l);
      ToldAfter(s, Step(s, p, turn), p, proc.(pc := Look(s, p, proc, turn)), l);
  }

  lemma StepMoves(s: State, p: nat, turn: Turn)
    requires p in s.procs && Fits(s.procs[p]) && !s.procs[p].pc.Finished?
    ensures var proc, t := s.procs[p], Step(s, p, turn);
      p in t.procs && match WriteAt(p, proc, turn)
        case Some(r) =>
          var (u, reply) := Send(s, r, turn.net);
          t.procs[p] == proc.(pc := Resume(proc, turn, reply)) && t.store == u.store
        case None => t.procs[p] == proc.(pc := Look(s, p, proc, turn)) && t.store == s.store
  {
    hide WriteAt, Resume, Look;
    var r := WriteAt(p, s.procs[p], turn);
    if r.Some? { SendLeavesProcs(s, r.value, turn.net); }
    hide Send;
  }

  lemma ToldAfter(s: State, t: State, p: nat, proc: Proc, k: iset<Sight>)
    requires PcTold(s, p, proc, k) && s.store == t.store
    ensures PcTold(t, p, proc, k)
  {
    ToldGrows(s, t, p, proc, k);
  }

  lemma ReadTold(s: State, p: nat, turn: Turn, k: iset<Sight>, l: iset<Sight>)
    requires p in s.procs && !s.procs[p].pc.Finished? && ProcOk(s, p, s.procs[p]) && PcTold(s, p, s.procs[p], k)
    requires Genuine(s) && WriteAt(p, s.procs[p], turn).None? && Learns(s, p, turn, k, l)
    ensures PcTold(s, p, s.procs[p].(pc := Look(s, p, s.procs[p], turn)), l)
  {
    var proc := s.procs[p];
    assert proc.call.Sweep? || Preparing(proc.pc) || Settling(proc.pc) || proc.pc.DestroyLoad? || proc.pc.BumpRead?;
    hide PcTold, Learns, Genuine, Look, ProcOk, WriteAt;
    if proc.call.Sweep? {
      ReadSweeping(s, p, proc, turn, k, l);
    } else if proc.pc.Staging? {
      ReadStaging(s, p, proc, turn, k, l);
    } else if proc.pc.Stamp? || proc.pc.CasRead? || proc.pc.CasGate? {
      ReadBinding(s, p, proc, turn, k, l);
    } else if proc.pc.FenceRead? || proc.pc.CommitGate? {
      ReadGate(s, p, proc, turn, k, l);
    } else if proc.pc.OracleFloor? || proc.pc.OracleRead? {
      ReadOracle(s, p, proc, turn, k, l);
    } else if proc.pc.Recheck? || proc.pc.Reread? {
      ReadRecheck(s, p, proc, turn, k, l);
    } else {
      ReadDestroying(s, p, proc, turn, k, l);
    }
  }

  lemma WriteStepTold(s: State, p: nat, turn: Turn, k: iset<Sight>, l: iset<Sight>)
    requires Inv(s) && p in s.procs && Fits(s.procs[p]) && !s.procs[p].pc.Finished? && PcTold(s, p, s.procs[p], k)
    requires WriteAt(p, s.procs[p], turn).Some? && Learns(s, p, turn, k, l)
    ensures var proc := s.procs[p]; var (t, reply) := Send(s, WriteAt(p, proc, turn).value, turn.net);
      PcTold(t, p, proc.(pc := Resume(proc, turn, reply)), l)
  {
    var proc := s.procs[p];
    var r := WriteAt(p, proc, turn).value;
    var (t, reply) := Send(s, r, turn.net);
    OwnFact(s, p);
    ReplyTeaches(s, p, turn, k, l);
    WriteAtOk(s, p, proc, turn);
    SendKeeps(s, r, turn.net);
    SendReplyFact(s, r, turn.net);
    ResumeOk(s, t, p, proc, turn, reply);
    OwnFact(t, p);
    InvStore(t);
    hide Inv, ProcOk, PcTold, Learns, WriteAt, Resume, Send, Taught, RequestOk, ReplyFact, StoreInv;
    assert Grows(s.store, t.store);
    hide Grows;
    ToldGrows(s, t, p, proc, k);
    if proc.call.Destroy? {
      ResumeDestroying(t, p, proc, turn, r, reply, k, l);
    } else if proc.pc.Staging? {
      ResumeStaging(t, p, proc, turn, r, reply, k, l);
    } else {
      ResumeWriting(t, p, proc, turn, r, reply, k, l);
    }
  }

  lemma Begun(s: State, p: nat, call: Call)
    ensures PcTold(s, p, Proc(call, Admit(call)), iset{}) && OwnTold(Proc(call, Admit(call)), iset{})
  {
  }

  lemma MetNothing(events: seq<Event>, n: nat, p: nat)
    requires n <= |events| && forall i :: 0 <= i < n ==> p !in Reach(events, i).procs
    ensures Met(events, n, p) == iset{}
  {
  }

  /** One more event: a step of the call teaches it what the step shows, any other event nothing. */
  lemma MetStep(events: seq<Event>, n: nat, p: nat)
    requires n < |events|
    ensures Acts(events, n, p) ==> Learns(Reach(events, n), p, events[n].turn, Met(events, n, p), Met(events, n + 1, p))
    ensures !Acts(events, n, p) ==> Met(events, n + 1, p) == Met(events, n, p)
  {
    hide Shows, Acts, Reach;
    forall sight ensures SawBefore(events, n + 1, p, sight) <==> SawBefore(events, n, p, sight) || SawAt(events, n, p,
      sight)
    {}
  }

  lemma {:induction false} NotBefore(events: seq<Event>, n: nat, p: nat)
    requires n <= |events| && p !in Reach(events, n).procs
    ensures forall i :: 0 <= i <= n ==> p !in Reach(events, i).procs
  {
    hide Next;
    if n > 0 {
      ReachStep(events, n - 1);
      ProcsStay(Reach(events, n - 1), events[n - 1], p);
      NotBefore(events, n - 1, p);
    }
  }

  lemma ProcsStay(s: State, e: Event, p: nat)
    ensures p in s.procs ==> p in Next(s, e).procs
    ensures p in s.procs ==> Next(s, e).procs[p].call == s.procs[p].call
    ensures p !in s.procs && p in Next(s, e).procs ==> e.Begin? && Next(s, e).procs[p] == Proc(e.call, Admit(e.call))
    ensures p in s.procs && Next(s, e).procs[p] != s.procs[p] ==> (e.Move? || e.Crash?) && e.p == p
    ensures p in s.procs && s.procs[p].pc.Finished? ==> Next(s, e).procs[p] == s.procs[p]
    ensures p in s.procs && e == Crash(p) && !s.procs[p].pc.Finished? ==> Next(s, e).procs[p].pc == Finished(Crashed)
  {
    hide WriteAt, Resume, Look, Send, Fits, Land;
    if e.Move? && e.p in s.procs && p in s.procs && (e.p != p || !Fits(s.procs[p]) || s.procs[p].pc.Finished?) {
      OthersUntouched(s, e.p, e.turn, p);
    }
    if e.Move? && e.p in s.procs { OnlyCallers(s, e.p, e.turn); }
    if e.Late? && e.k < |s.floating| { LandLeavesProcs(s, s.floating[e.k]); }
  }

  lemma OnlyCallers(s: State, p: nat, turn: Turn)
    requires p in s.procs
    ensures Step(s, p, turn).procs.Keys == s.procs.Keys && Step(s, p, turn).procs[p].call == s.procs[p].call
  {
    hide WriteAt, Resume, Look;
    if Fits(s.procs[p]) && WriteAt(p, s.procs[p], turn).Some? {
      SendLeavesProcs(s, WriteAt(p, s.procs[p], turn).value, turn.net);
    }
    hide Send;
  }

  /** In every run, at every instant, every call has been told what its program counter or its answer claims. */
  lemma {:induction false} AllTold(events: seq<Event>, n: nat, p: nat)
    requires Disciplined(events) && n <= |events| && p in Reach(events, n).procs
    ensures var s := Reach(events, n);
      PcTold(s, p, s.procs[p], Met(events, n, p)) && OwnTold(s.procs[p], Met(events, n, p))
    decreases n
  {
    hide Next, PcTold, OwnTold, Inv, Genuine, Acts, Reach, Met, Learns;
    if n == 0 {
      NobodyYet(events);
    } else {
      var a, e := Reach(events, n - 1), events[n - 1];
      ReachStep(events, n - 1);
      ReachInv(events, n - 1);
      RunGenuine(events, n - 1);
      ReachAdvances(events, n - 1, n);
      ProcsStay(a, e, p);
      MetStep(events, n - 1, p);
      if p !in a.procs {
        NotBefore(events, n - 1, p);
        NotActing(events, n - 1, p);
        MetNothing(events, n - 1, p);
        Begun(Reach(events, n), p, e.call);
      } else {
        AllTold(events, n - 1, p);
        EventTold(events, n - 1, p);
      }
    }
  }

  lemma NobodyYet(events: seq<Event>)
    ensures Reach(events, 0).procs == map[]
  {
    NothingYet(events);
  }

  lemma NotActing(events: seq<Event>, i: nat, p: nat)
    requires i < |events| && p !in Reach(events, i).procs
    ensures !Acts(events, i, p)
  {
  }

  lemma EventTold(events: seq<Event>, i: nat, p: nat)
    requires i < |events| && p in Reach(events, i).procs && p in Reach(events, i + 1).procs
    requires Inv(Reach(events, i)) && Genuine(Reach(events, i)) && Advances(Reach(events, i), Reach(events, i + 1))
    requires Reach(events, i + 1) == Next(Reach(events, i), events[i])
    requires PcTold(Reach(events, i), p, Reach(events, i).procs[p], Met(events, i, p))
    requires OwnTold(Reach(events, i).procs[p], Met(events, i, p))
    ensures var t := Reach(events, i + 1);
      PcTold(t, p, t.procs[p], Met(events, i + 1, p)) && OwnTold(t.procs[p], Met(events, i + 1, p))
  {
    var s, e := Reach(events, i), events[i];
    MetStep(events, i, p);
    ProcsStay(s, e, p);
    ActsMeans(events, i, p);
    OwnFits(s, p);
    hide PcTold, OwnTold, Inv, Genuine, Acts, Reach, Met, Learns, Step, Fits;
    if Acts(events, i, p) {
      StepTold(s, p, e.turn, Met(events, i, p), Met(events, i + 1, p));
    } else {
      if Next(s, e).procs[p] == s.procs[p] {
        ToldGrows(s, Next(s, e), p, s.procs[p], Met(events, i, p));
      } else {
        CrashTold(Next(s, e), p, s, Met(events, i, p));
      }
    }
  }

  lemma ActsMeans(events: seq<Event>, i: nat, p: nat)
    requires i < |events| && p in Reach(events, i).procs
    ensures var s := Reach(events, i);
      Acts(events, i, p) <==> events[i].Move? && events[i].p == p && Fits(s.procs[p]) && !s.procs[p].pc.Finished?
  {
    hide Reach, Fits;
  }

  lemma OwnFits(s: State, p: nat)
    requires Inv(s) && p in s.procs
    ensures Fits(s.procs[p])
  {
    OwnFact(s, p);
  }

  lemma CrashTold(t: State, p: nat, s: State, k: iset<Sight>)
    requires p in t.procs && t.procs[p].pc == Finished(Crashed)
    requires p in s.procs && PcTold(s, p, s.procs[p], k) && t.procs[p].call == s.procs[p].call
    ensures PcTold(t, p, t.procs[p], k) && OwnTold(t.procs[p], k)
  {
  }

  /** What every answer of a value call means, under any interference. */
  lemma AnswerMeans(events: seq<Event>, p: nat, o: Outcome)
    requires Disciplined(events) && Outcomes(End(events), p) == Some(o)
    ensures OutcomeTold(End(events), End(events).procs[p].call, o, Met(events, |events|, p))
    ensures PublicationTold(End(events).procs[p].call, o, Met(events, |events|, p))
  {
    hide Next;
    AllTold(events, |events|, p);
  }
}
