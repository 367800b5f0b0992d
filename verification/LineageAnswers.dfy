/**
 What the answers of lineage calls mean.  Every outcome of every call, under any interference, is traced to
 what the call itself met at one of its own steps.
*/
module LineageAnswers {
  import opened Basics
  import opened EraStore
  import opened Records
  import opened Lineage
  import opened LineageProofs
  import opened LineageTheorems

  /** What a call can meet at one of its steps. */
  datatype Sight =
    | Empty                               // nothing at the head key
    | Occupied
    | Standing(head: Head)
    | Without(head: Head)                 // not this one
    | Undecodable                         // a head that does not decode
    | EraIs(era: nat)
    | EraNot(era: nat)
    | CounterFull
    | NoTomb
    | TurnedDown                          // a conditional request of the call did not apply
    | Spurious                            // the store refused a request although its tag agreed
    | Undelivered                         // a request or its reply was lost
    | Loaded(cell: Option<Head>)          // what a destroy found at the key
    | Emptied                             // the step left the key empty
    | Planted                             // the call's own head was put
    | Vacated                             // withdrawing it, the call left the key empty
    | Recalled                            // a successor's own head no longer stood

  ghost predicate Shows(s: State, p: nat, net: Net, sight: Sight)
    requires p in s.procs && Fits(s.procs[p])
  {
    match sight
    case Empty => s.store.cell.None?
    case Occupied => s.store.cell.Some?
    case Standing(h) => s.store.cell == Some(h)
    case Without(h) => s.store.cell != Some(h)
    case Undecodable => s.store.cell.Some? && !Decodable(s.store.cell.value)
    case EraIs(e) => Era(s.store) == e
    case EraNot(e) => Era(s.store) != e
    case CounterFull => Era(s.store) >= U64_MAX
    case NoTomb => s.store.tomb.None?
    case TurnedDown =>
      var r := WriteAt(s.lineage, p, s.procs[p]); r.Some? && Answer(s, r.value) != Done
    case Spurious => net.Refuse?
    case Undelivered => net.LoseRequest? || net.LoseReply?
    case Loaded(cell) => s.procs[p].pc.DestroyLoad? && cell == s.store.cell && (net.Deliver? || net.Refuse?)
    case Emptied => Step(s, p, net).store.cell.None?
    case Planted => (s.procs[p].pc.HeadPut? || s.procs[p].pc.CasPut?) && Step(s, p, net).store != s.store
    case Vacated => s.procs[p].pc.HeadEvict? && Step(s, p, net).store.cell.None?
    case Recalled => s.procs[p].pc.CasRetire? && Step(s, p, net).store.cell != Some(Target(s.lineage, s.procs[p]))
  }

  /** Event `i` is a step of call `p`. */
  ghost predicate Acts(tr: Trace, i: nat, p: nat)
    requires i < |tr.events|
  {
    && tr.events[i].Move? && tr.events[i].p == p && p in Reach(tr, i).procs
    && Fits(Reach(tr, i).procs[p]) && !Reach(tr, i).procs[p].pc.Finished?
  }

  ghost predicate SawAt(tr: Trace, i: nat, p: nat, sight: Sight)
    requires i < |tr.events|
  {
    Acts(tr, i, p) && Shows(Reach(tr, i), p, tr.events[i].net, sight)
  }

  ghost predicate SawBefore(tr: Trace, n: nat, p: nat, sight: Sight)
    requires n <= |tr.events|
  {
    exists i :: 0 <= i < n && SawAt(tr, i, p, sight)
  }

  /** Everything call `p` met in the first `n` events. */
  ghost function Met(tr: Trace, n: nat, p: nat): iset<Sight>
    requires n <= |tr.events|
  {
    iset sight: Sight | SawBefore(tr, n, p, sight)
  }

  /** The counter moved during the call. */
  ghost predicate Moved(k: iset<Sight>) { exists e :: EraIs(e) in k && EraNot(e) in k }

  ghost predicate LoadedOnly(k: iset<Sight>, x: Option<Option<Head>>) {
    forall y :: Loaded(y) in k <==> x == Some(y)
  }

  /** The destroy has closed what it found. */
  ghost predicate Closed(s: State, h: Head) { s.store.tomb.Some? && h.era < Era(s.store) }

  // ---- What an answer means ------------------------------------------------------------

  ghost predicate OutcomeTold(s: State, call: Call, o: Outcome, k: iset<Sight>) {
    match o
    case Acked(_) => Appends(call) || EmptyBatch(call)
    case Conflict => ConflictTold(s, call, k)
    case Malformed =>
      (match call
       case Genesis(records) => !BatchOk(s.lineage, records, 0, None)
       case Successor(_, _, _) => Undecodable in k || !SuccessorOk(s.lineage, call)
       case _ => Undecodable in k)
    case DigestMismatch => false
    case Incomplete => call.Successor? && Empty in k
    case NotAllowed => call.Successor? && !s.successors
    case Unavailable => Undelivered in k || TurnedDown in k || Spurious in k || CounterFull in k || Moved(k)
    case Destroyed =>
      && call.Destroy? && Emptied in k
      && (LoadedOnly(k, Some(None)) || exists h :: LoadedOnly(k, Some(Some(h))) && Closed(s, h))
    case SeenPresent(h) => call.ReadState? && Standing(h) in k && Decodable(h)
    case SeenDestroyed(tomb, _) => call.ReadState? && Empty in k && s.store.tomb == Some(tomb)
    case SeenAbsent(_) => call.ReadState? && Empty in k && NoTomb in k
  }

  ghost predicate ConflictTold(s: State, call: Call, k: iset<Sight>) {
    match call
    case Genesis(_) => Occupied in k || Spurious in k
    case Successor(_, expected, _) =>
      || expected.body.lineage != s.lineage || EraNot(expected.era) in k || Without(expected) in k || Spurious in k
    case Destroy => exists h :: LoadedOnly(k, Some(Some(h))) && Closed(s, h) && (Without(h) in k || Spurious in k)
    case ReadState => false
  }

  /**
   What becomes of the call's own head.  A successor that put its head either acknowledges it, does not
   know, or answers a conflict once the incarnation has moved and the head no longer stands; a creation
   that gives up for want of a steady incarnation has left the key empty.
  */
  ghost predicate PublicationTold(call: Call, o: Outcome, k: iset<Sight>) {
    && (call.Successor? && Planted in k ==>
          || o.Acked? || o.Unavailable?
          || (o.Conflict? && EraNot(call.expected.era) in k && (Recalled in k || Spurious in k)))
    && (call.Genesis? && o.Unavailable? ==> Undelivered in k || TurnedDown in k || Spurious in k || Vacated in k)
  }

  ghost predicate OwnTold(proc: Proc, k: iset<Sight>) {
    && (proc.call.Successor? && BeforePut(proc.pc) ==> Planted !in k)
    && (proc.pc.StampRead? && proc.pc.left < ATTEMPTS ==> Vacated in k)
    && (proc.pc.Finished? ==> PublicationTold(proc.call, proc.pc.outcome, k))
  }

  predicate BeforePut(pc: Pc) { pc.GateRead? || pc.HeadCompare? || pc.Publishing? || pc.ReadingBack? || pc.CasPut? }

  /** What a call carries with it on the way there. */
  ghost predicate PcTold(s: State, p: nat, proc: Proc, k: iset<Sight>) {
    match proc.pc
    case ReadingBack(i) => Appends(proc.call) && i < |proc.call.records| && DigestOf(proc.call.records[i]) in s.objects
    case StampRead(left) => left < ATTEMPTS ==> Moved(k)
    case HeadPut(_, era) => EraIs(era) in k
    case HeadRecheck(_, era) => EraIs(era) in k
    case HeadEvict(_, era) => EraIs(era) in k && EraNot(era) in k
    case CasRetire => proc.call.Successor? && EraNot(proc.call.expected.era) in k
    case DestroyLoad => proc.call.Destroy? && LoadedOnly(k, None)
    case TombPut(h) => proc.call.Destroy? && LoadedOnly(k, Some(Some(h)))
    case BumpRead(h, _) => proc.call.Destroy? && LoadedOnly(k, Some(Some(h)))
    case BumpPut(h, _, _) => proc.call.Destroy? && LoadedOnly(k, Some(Some(h)))
    case TailDelete(h) => proc.call.Destroy? && LoadedOnly(k, Some(Some(h))) && Closed(s, h)
    case StateHead => proc.call.ReadState?
    case StateTomb(_) => proc.call.ReadState? && Empty in k
    case Finished(o) => OutcomeTold(s, proc.call, o, k)
    case _ => true
  }

  // ---- One step --------------------------------------------------------------------------

  /** What the call met by the end of its step. */
  ghost predicate Learns(s: State, p: nat, net: Net, k: iset<Sight>, l: iset<Sight>)
    requires p in s.procs && Fits(s.procs[p])
  {
    forall sight :: sight in l <==> sight in k || Shows(s, p, net, sight)
  }

  lemma ReadLeavesStore(s: State, p: nat, net: Net)
    requires p in s.procs && Fits(s.procs[p]) && WriteAt(s.lineage, p, s.procs[p]).None?
    ensures Step(s, p, net).store == s.store
  {
    hide Look;
  }

  lemma ReadAppending(s: State, p: nat, proc: Proc, net: Net, k: iset<Sight>, l: iset<Sight>)
    requires p in s.procs && proc == s.procs[p] && Fits(proc) && PcTold(s, p, proc, k)
    requires !proc.pc.Finished? && (Appends(proc.call) || EmptyBatch(proc.call))
    requires WriteAt(s.lineage, p, proc).None? && Learns(s, p, net, k, l)
    requires forall d :: d in s.objects ==> s.objects[d] == d.blob
    ensures PcTold(s, p, proc.(pc := Look(s, proc, net)), l)
  {
    hide Step, Answer, HeadFor, SuccessorOk;
    assert EraIs(Era(s.store)) in l;
  }

  lemma ReadOther(s: State, p: nat, proc: Proc, net: Net, k: iset<Sight>, l: iset<Sight>)
    requires p in s.procs && proc == s.procs[p] && Fits(proc) && PcTold(s, p, proc, k)
    requires !proc.pc.Finished? && (proc.call.Destroy? || proc.call.ReadState?)
    requires WriteAt(s.lineage, p, proc).None? && Learns(s, p, net, k, l)
    ensures PcTold(s, p, proc.(pc := Look(s, proc, net)), l)
  {
    ReadLeavesStore(s, p, net);
    LearnsLoaded(s, p, net, k, l);
    hide Step, Answer, HeadFor, SuccessorOk;
  }

  /** What a destroy learns by reading. */
  lemma LearnsLoaded(s: State, p: nat, net: Net, k: iset<Sight>, l: iset<Sight>)
    requires p in s.procs && Fits(s.procs[p]) && WriteAt(s.lineage, p, s.procs[p]).None? && Learns(s, p, net, k, l)
    ensures s.store.cell.None? ==> Emptied in l
    ensures net.LoseRequest? || net.LoseReply? ==> Undelivered in l
    ensures Era(s.store) >= U64_MAX ==> CounterFull in l
    ensures forall y :: Loaded(y) in l <==>
      (Loaded(y) in k || (s.procs[p].pc.DestroyLoad? && y == s.store.cell && (net.Deliver? || net.Refuse?)))
  {
    ReadLeavesStore(s, p, net);
    hide Step, WriteAt, Fits, Answer;
  }

  // ---- Writes ------------------------------------------------------------------------------

  /** What the reply to a request teaches the call that sent it. */
  ghost predicate Taught(r: Request, reply: Reply, k: iset<Sight>, l: iset<Sight>) {
    && (forall sight :: sight in k ==> sight in l)
    && (forall y :: Loaded(y) in l ==> Loaded(y) in k)
    && (reply.Lost? ==> Undelivered in l) && (reply.Missing? ==> r.Guarded? && r.write.DeleteCell?)
    && (reply.Refused? || reply.Missing? ==> TurnedDown in l || Spurious in l)
    && (r.Guarded? && reply.Refused? ==>
          match r.write
          case PutCell(_, _, None) => Occupied in l
          case PutCell(_, _, Some(h)) => Without(h) in l || Spurious in l
          case DeleteCell(h) => Spurious in l || (Without(h) in l && Occupied in l)
          case _ => true)
    && (r.Guarded? && r.write.DeleteCell? && (reply.Done? || reply.Missing?) ==> Emptied in l)
  }

  lemma ReplyTeaches(s: State, p: nat, net: Net, k: iset<Sight>, l: iset<Sight>)
    requires p in s.procs && Fits(s.procs[p]) && !s.procs[p].pc.Finished? && Learns(s, p, net, k, l)
    requires WriteAt(s.lineage, p, s.procs[p]).Some?
    ensures var r := WriteAt(s.lineage, p, s.procs[p]).value; Taught(r, Send(s, r, net).1, k, l)
  {
    var r := WriteAt(s.lineage, p, s.procs[p]).value;
    var (t, reply) := Send(s, r, net);
    StepSends(s, p, net);
    ReplyMeans(s, r, net);
    LearnsWriting(s, p, net, k, l);
    hide Learns, Shows, Resume, Look, WriteAt, Fits, Step, Send, Answer, IfMatch;
  }

  /** What a call learns by writing. */
  lemma LearnsWriting(s: State, p: nat, net: Net, k: iset<Sight>, l: iset<Sight>)
    requires p in s.procs && Fits(s.procs[p]) && !s.procs[p].pc.DestroyLoad? && Learns(s, p, net, k, l)
    requires WriteAt(s.lineage, p, s.procs[p]).Some?
    ensures (forall sight :: sight in k ==> sight in l) && (forall y :: Loaded(y) in l ==> Loaded(y) in k)
    ensures net.LoseRequest? || net.LoseReply? ==> Undelivered in l
    ensures net.Refuse? ==> Spurious in l
    ensures Answer(s, WriteAt(s.lineage, p, s.procs[p]).value) != Done ==> TurnedDown in l
    ensures s.store.cell.Some? ==> Occupied in l
    ensures forall c :: s.store.cell != Some(c) ==> Without(c) in l
    ensures Step(s, p, net).store.cell.None? ==> Emptied in l
  {
    hide WriteAt, Fits, Step, Answer;
  }

  lemma StepSends(s: State, p: nat, net: Net)
    requires p in s.procs && Fits(s.procs[p]) && !s.procs[p].pc.Finished? && WriteAt(s.lineage, p, s.procs[p]).Some?
    ensures Step(s, p, net).store == Send(s, WriteAt(s.lineage, p, s.procs[p]).value, net).0.store
    ensures !s.procs[p].pc.DestroyLoad?
  {
    hide Send, Resume;
  }

  lemma ReplyMeans(s: State, r: Request, net: Net)
    ensures var reply := Send(s, r, net).1;
      && (reply.Lost? <==> net.LoseRequest? || net.LoseReply?)
      && (reply.Missing? ==> r.Guarded? && r.write.DeleteCell?)
      && (reply.Refused? || reply.Missing? ==> Answer(s, r) != Done || net.Refuse?)
      && (r.Guarded? && reply.Refused? && r.write.PutCell? ==>
            s.store.cell != r.write.over || (net.Refuse? && r.write.over.Some?))
      && (r.Guarded? && reply.Refused? && r.write.DeleteCell? ==>
            net.Refuse? || (s.store.cell.Some? && s.store.cell != Some(r.write.cell)))
      && (r.Guarded? && r.write.DeleteCell? && (reply.Done? || reply.Missing?) ==> Send(s, r, net).0.store.cell.None?)
  {
    hide Land;
    if r.Guarded? && r.write.DeleteCell? { DeleteEmpties(s, r, net); }
  }

  lemma DeleteEmpties(s: State, r: Request, net: Net)
    requires r.Guarded? && r.write.DeleteCell?
    ensures var (t, reply) := Send(s, r, net); reply.Done? || reply.Missing? ==> t.store.cell.None?
  {
  }

  /** A record put that was answered is there to be read back. */
  lemma PutObjectStays(s: State, blob: Blob, net: Net)
    ensures var (t, reply) := Send(s, PutObject(blob), net); !reply.Lost? ==> Sha256(blob) in t.objects
  {
  }

  lemma ResumeDestroying(t: State, p: nat, proc: Proc, r: Request, reply: Reply, k: iset<Sight>, l: iset<Sight>)
    requires proc.call.Destroy? && !proc.pc.Finished? && PcTold(t, p, proc, k) && Fits(proc)
    requires WriteAt(t.lineage, p, proc) == Some(r) && Taught(r, reply, k, l)
    requires ProcOk(t, p, proc.(pc := Resume(proc, reply))) && StoreInv(t.store)
    ensures PcTold(t, p, proc.(pc := Resume(proc, reply)), l)
  {
    hide Target, OutcomeOk, Legal, HeadFor;
  }

  lemma ResumeAppending(t: State, p: nat, proc: Proc, r: Request, reply: Reply, k: iset<Sight>, l: iset<Sight>)
    requires !proc.call.Destroy? && !proc.pc.Finished? && PcTold(t, p, proc, k) && Fits(proc)
    requires WriteAt(t.lineage, p, proc) == Some(r) && Taught(r, reply, k, l)
    requires r.PutObject? && !reply.Lost? ==> Sha256(r.blob) in t.objects
    ensures PcTold(t, p, proc.(pc := Resume(proc, reply)), l)
  {
    hide Target, HeadFor, SuccessorOk;
  }

  // ---- The call's own head ----------------------------------------------------------------------

  /** Where a read can lead, as far as the call's own head is concerned. */
  lemma LookOwn(s: State, p: nat, proc: Proc, net: Net, k: iset<Sight>)
    requires Fits(proc) && !proc.pc.Finished? && WriteAt(s.lineage, p, proc).None? && PcTold(s, p, proc, k)
    requires forall d :: d in s.objects ==> s.objects[d] == d.blob
    ensures var pc := Look(s, proc, net);
      && (BeforePut(pc) && proc.call.Successor? ==> BeforePut(proc.pc))
      && (pc.StampRead? ==> pc.left == ATTEMPTS)
      && (pc.Finished? && proc.call.Successor? && !BeforePut(proc.pc) ==> pc.outcome.Acked? || pc.outcome.Unavailable?)
      && (pc.Finished? && proc.call.Genesis? && pc.outcome.Unavailable? ==> net.LoseRequest? || net.LoseReply?)
  {
    hide Target, SuccessorOk, OutcomeTold, HeadFor;
  }

  /** What a call learns of its own head. */
  lemma LearnsOwn(s: State, p: nat, net: Net, k: iset<Sight>, l: iset<Sight>)
    requires p in s.procs && Fits(s.procs[p]) && Learns(s, p, net, k, l)
    ensures (forall sight :: sight in k ==> sight in l) && (net.LoseRequest? || net.LoseReply? ==> Undelivered in l)
    ensures net.Refuse? ==> Spurious in l
    ensures var proc, after := s.procs[p], Step(s, p, net).store;
      && (Planted in l ==> Planted in k || ((proc.pc.HeadPut? || proc.pc.CasPut?) && after != s.store))
      && (proc.pc.HeadEvict? && after.cell.None? ==> Vacated in l)
      && (proc.pc.CasRetire? && after.cell != Some(Target(s.lineage, proc)) ==> Recalled in l)
  {
    hide WriteAt, Step, Answer, Target;
  }

  lemma ReadOwn(s: State, p: nat, net: Net, k: iset<Sight>, l: iset<Sight>)
    requires p in s.procs && !s.procs[p].pc.Finished? && PcTold(s, p, s.procs[p], k) && OwnTold(s.procs[p], k)
    requires forall d :: d in s.objects ==> s.objects[d] == d.blob
    requires Fits(s.procs[p]) && WriteAt(s.lineage, p, s.procs[p]).None? && Learns(s, p, net, k, l)
    ensures OwnTold(s.procs[p].(pc := Look(s, s.procs[p], net)), l)
  {
    LearnsOwn(s, p, net, k, l);
    ReadLeavesStore(s, p, net);
    LookOwn(s, p, s.procs[p], net, k);
    hide Look, Learns, WriteAt, Fits, PcTold, Step;
  }

  /** Where a reply can lead, as far as the call's own head is concerned. */
  lemma ResumeOwn(s: State, p: nat, proc: Proc, reply: Reply, k: iset<Sight>)
    requires Fits(proc) && !proc.pc.Finished? && WriteAt(s.lineage, p, proc).Some? && PcTold(s, p, proc, k)
    ensures var pc, withdrawn := Resume(proc, reply), proc.pc.HeadEvict? && (reply.Done? || reply.Missing?);
      && (BeforePut(pc) && proc.call.Successor? ==> BeforePut(proc.pc) && !proc.pc.CasPut?)
      && (pc.StampRead? ==> withdrawn)
      && (pc.Finished? && proc.call.Successor? ==>
            || (reply.Lost? && pc.outcome.Unavailable?)
            || (proc.pc.CasPut? && !reply.Done? && !reply.Lost?)
            || (!reply.Lost? && proc.pc.CasRetire? && pc.outcome.Conflict? && EraNot(proc.call.expected.era) in k))
      && (pc.Finished? && proc.call.Genesis? && pc.outcome.Unavailable? ==> reply.Lost? || withdrawn)
  {
    hide Target;
  }

  lemma ReplyOwn(s: State, p: nat, net: Net)
    requires p in s.procs && Fits(s.procs[p]) && !s.procs[p].pc.Finished? && WriteAt(s.lineage, p, s.procs[p]).Some?
    ensures var proc, reply, after :=
        s.procs[p], Send(s, WriteAt(s.lineage, p, s.procs[p]).value, net).1, Step(s, p, net).store;
      && (reply.Lost? ==> net.LoseRequest? || net.LoseReply?)
      && (proc.pc.CasPut? && (reply.Refused? || reply.Missing?) ==> after == s.store)
      && (proc.pc.HeadEvict? && (reply.Done? || reply.Missing?) ==> after.cell.None?)
      && (proc.pc.CasRetire? && !reply.Lost? && !net.Refuse? ==> after.cell != Some(Target(s.lineage, proc)))
  {
    var proc, r := s.procs[p], WriteAt(s.lineage, p, s.procs[p]).value;
    StepSends(s, p, net);
    if r.Guarded? { GuardedReply(s, r, net); }
    ReplyMeans(s, r, net);
    WithdrawalGuarded(s.lineage, p, proc);
    hide WriteAt, Step, Answer, Send, Target, Fits;
  }

  lemma WithdrawalGuarded(lineage: nat, p: nat, proc: Proc)
    requires Fits(proc) && WriteAt(lineage, p, proc).Some?
    ensures proc.pc.CasPut? ==>
      WriteAt(lineage, p, proc).value.Guarded? && WriteAt(lineage, p, proc).value.write.PutCell?
    ensures proc.pc.HeadEvict? || proc.pc.CasRetire? ==>
      WriteAt(lineage, p, proc) == Some(Guarded(DeleteCell(Target(lineage, proc))))
  {
    hide Target;
  }

  /** A conditional request that is refused leaves the store as it was. */
  lemma GuardedReply(s: State, r: Request, net: Net)
    requires r.Guarded?
    ensures var (t, reply) := Send(s, r, net);
      && (reply.Refused? || reply.Missing? ==> t.store == s.store)
      && (r.write.DeleteCell? && !reply.Lost? && !net.Refuse? ==> t.store.cell != Some(r.write.cell))
  {
  }

  lemma WriteOwn(s: State, p: nat, net: Net, k: iset<Sight>, l: iset<Sight>)
    requires p in s.procs && !s.procs[p].pc.Finished? && Fits(s.procs[p]) && OwnTold(s.procs[p], k)
    requires WriteAt(s.lineage, p, s.procs[p]).Some? && Learns(s, p, net, k, l) && PcTold(s, p, s.procs[p], k)
    ensures var reply := Send(s, WriteAt(s.lineage, p, s.procs[p]).value, net).1;
      OwnTold(s.procs[p].(pc := Resume(s.procs[p], reply)), l)
  {
    var reply := Send(s, WriteAt(s.lineage, p, s.procs[p]).value, net).1;
    LearnsOwn(s, p, net, k, l);
    ReplyOwn(s, p, net);
    ResumeOwn(s, p, s.procs[p], reply, k);
    hide Resume, Learns, WriteAt, Fits, Send, Step, PcTold, Target;
  }

  // ---- Every step, every run -----------------------------------------------------------------

  /** Being told is kept while the store grows and the call stands still. */
  lemma ToldGrows(s: State, t: State, p: nat, proc: Proc, k: iset<Sight>)
    requires PcTold(s, p, proc, k) && Grows(s.store, t.store) && Includes(s.objects, t.objects)
    requires s.lineage == t.lineage && s.successors == t.successors
    ensures PcTold(t, p, proc, k)
  {
    hide SuccessorOk, BatchOk;
  }

  lemma StepMoves(s: State, p: nat, net: Net)
    requires p in s.procs && Fits(s.procs[p]) && !s.procs[p].pc.Finished?
    ensures var proc, t := s.procs[p], Step(s, p, net);
      p in t.procs && match WriteAt(s.lineage, p, proc)
        case Some(r) =>
          var (u, reply) := Send(s, r, net);
          t == u.(procs := t.procs) && t.procs[p] == proc.(pc := Resume(proc, reply))
        case None => t == s.(procs := t.procs) && t.procs[p] == proc.(pc := Look(s, proc, net))
  {
    hide WriteAt, Resume, Look;
    var r := WriteAt(s.lineage, p, s.procs[p]);
    if r.Some? { SendKeepsProcs(s, r.value, net); }
    hide Send;
  }

  lemma StepTold(s: State, p: nat, net: Net, k: iset<Sight>, l: iset<Sight>)
    requires Inv(s) && p in s.procs && PcTold(s, p, s.procs[p], k) && !s.procs[p].pc.Finished?
    requires Fits(s.procs[p]) && Learns(s, p, net, k, l) && OwnTold(s.procs[p], k)
    ensures var t := Step(s, p, net); p in t.procs && PcTold(t, p, t.procs[p], l) && OwnTold(t.procs[p], l)
  {
    var proc := s.procs[p];
    StepMoves(s, p, net);
    assert forall d :: d in s.objects ==> s.objects[d] == d.blob by { InvStore(s); }
    hide Inv, PcTold, OwnTold, Learns, Resume, Look, WriteAt, Send, Step, Fits;
    match WriteAt(s.lineage, p, proc)
    case Some(r) =>
      var (t, reply) := Send(s, r, net);
      WriteStepTold(s, p, net, k, l);
      WriteOwn(s, p, net, k, l);
      ToldAfter(t, Step(s, p, net), p, proc.(pc := Resume(proc, reply)), l);
    case None =>
      ReadTold(s, p, net, k, l);
      ReadOwn(s, p, net, k, l);
      ToldAfter(s, Step(s, p, net), p, proc.(pc := Look(s, proc, net)), l);
  }

  lemma ToldAfter(s: State, t: State, p: nat, proc: Proc, k: iset<Sight>)
    requires PcTold(s, p, proc, k) && t == s.(procs := t.procs)
    ensures PcTold(t, p, proc, k)
  {
    ToldGrows(s, t, p, proc, k);
  }

  lemma ReadTold(s: State, p: nat, net: Net, k: iset<Sight>, l: iset<Sight>)
    requires Inv(s) && p in s.procs && !s.procs[p].pc.Finished? && Fits(s.procs[p]) && PcTold(s, p, s.procs[p], k)
    requires WriteAt(s.lineage, p, s.procs[p]).None? && Learns(s, p, net, k, l)
    ensures PcTold(s, p, s.procs[p].(pc := Look(s, s.procs[p], net)), l)
  {
    var proc := s.procs[p];
    InvStore(s);
    hide Inv, Learns, Look;
    if proc.call.Destroy? || proc.call.ReadState? {
      ReadOther(s, p, proc, net, k, l);
    } else {
      ReadAppending(s, p, proc, net, k, l);
    }
  }

  lemma WriteStepTold(s: State, p: nat, net: Net, k: iset<Sight>, l: iset<Sight>)
    requires Inv(s) && p in s.procs && Fits(s.procs[p]) && !s.procs[p].pc.Finished? && PcTold(s, p, s.procs[p], k)
    requires WriteAt(s.lineage, p, s.procs[p]).Some? && Learns(s, p, net, k, l)
    ensures var proc := s.procs[p]; var (t, reply) := Send(s, WriteAt(s.lineage, p, proc).value, net);
      PcTold(t, p, proc.(pc := Resume(proc, reply)), l)
  {
    var proc := s.procs[p];
    var r := WriteAt(s.lineage, p, proc).value;
    var (t, reply) := Send(s, r, net);
    OwnFact(s, p);
    ReplyTeaches(s, p, net, k, l);
    WriteAtOk(s, p, proc);
    SendKeeps(s, r, net);
    SendReplyFact(s, r, net);
    ResumeOk(s, t, p, proc, reply);
    InvStore(t);
    if r.PutObject? { PutObjectStays(s, r.blob, net); }
    hide Inv, ProcOk, PcTold, Learns, WriteAt, Resume, Send, Taught, RequestOk, ReplyFact, StoreInv, Fits;
    assert Advances(s, t);
    hide Grows, Includes;
    ToldGrows(s, t, p, proc, k);
    if proc.call.Destroy? {
      ResumeDestroying(t, p, proc, r, reply, k, l);
    } else {
      ResumeAppending(t, p, proc, r, reply, k, l);
    }
  }

  lemma Begun(s: State, t: State, p: nat, call: Call)
    requires t.lineage == s.lineage && t.successors == s.successors
    ensures PcTold(t, p, Proc(call, Admit(s, call)), iset{}) && OwnTold(Proc(call, Admit(s, call)), iset{})
  {
    hide BatchOk;
  }

  lemma MetNothing(tr: Trace, n: nat, p: nat)
    requires n <= |tr.events| && forall i :: 0 <= i < n ==> p !in Reach(tr, i).procs
    ensures Met(tr, n, p) == iset{}
  {
  }

  /** One more event: a step of the call teaches it what the step shows, any other event nothing. */
  lemma MetStep(tr: Trace, n: nat, p: nat)
    requires n < |tr.events|
    ensures Acts(tr, n, p) ==> Learns(Reach(tr, n), p, tr.events[n].net, Met(tr, n, p), Met(tr, n + 1, p))
    ensures !Acts(tr, n, p) ==> Met(tr, n + 1, p) == Met(tr, n, p)
  {
    hide Shows, Acts, Reach;
    forall sight ensures SawBefore(tr, n + 1, p, sight) <==> SawBefore(tr, n, p, sight) || SawAt(tr, n, p, sight)
    {}
  }

  lemma ProcsStay(s: State, e: Event, p: nat)
    ensures p in s.procs ==> p in Next(s, e).procs && Next(s, e).procs[p].call == s.procs[p].call
    ensures p !in s.procs && p in Next(s, e).procs ==> e.Begin? && Next(s, e).procs[p] == Proc(e.call, Admit(s, e.call))
    ensures p in s.procs && Next(s, e).procs[p] != s.procs[p] ==>
      e.Move? && e.p == p && Fits(s.procs[p]) && !s.procs[p].pc.Finished?
  {
    hide WriteAt, Resume, Look, Fits, Admit;
    if e.Move? && e.p in s.procs { OneMoves(s, e.p, e.net); }
    if e.Move? && e.p in s.procs && !(Fits(s.procs[e.p]) && !s.procs[e.p].pc.Finished?) {
      assert Step(s, e.p, e.net) == s;
    }
  }

  lemma {:induction false} NotBefore(tr: Trace, n: nat, p: nat)
    requires n <= |tr.events| && p !in Reach(tr, n).procs
    ensures forall i :: 0 <= i <= n ==> p !in Reach(tr, i).procs
  {
    hide Next;
    if n > 0 {
      ReachStep(tr, n - 1);
      ProcsStay(Reach(tr, n - 1), tr.events[n - 1], p);
      NotBefore(tr, n - 1, p);
    }
  }

  lemma NotActing(tr: Trace, i: nat, p: nat)
    requires i < |tr.events| && p !in Reach(tr, i).procs
    ensures !Acts(tr, i, p)
  {
  }

  lemma NobodyYet(tr: Trace)
    ensures Reach(tr, 0).procs == map[]
  {
    NothingYet(tr);
  }

  /** In every run, at every instant, every call has been told what its program counter or its answer claims. */
  lemma {:induction false} AllTold(tr: Trace, n: nat, p: nat)
    requires n <= |tr.events| && p in Reach(tr, n).procs
    ensures var s := Reach(tr, n); PcTold(s, p, s.procs[p], Met(tr, n, p)) && OwnTold(s.procs[p], Met(tr, n, p))
    decreases n
  {
    hide Next, PcTold, OwnTold, Inv, Acts, Reach, Met, Learns, Fits, Grows, Includes;
    if n == 0 {
      NobodyYet(tr);
    } else {
      var a, e := Reach(tr, n - 1), tr.events[n - 1];
      ReachStep(tr, n - 1);
      ReachInv(tr, n - 1);
      NextKeeps(a, e);
      ProcsStay(a, e, p);
      MetStep(tr, n - 1, p);
      if p !in a.procs {
        NotBefore(tr, n - 1, p);
        NotActing(tr, n - 1, p);
        MetNothing(tr, n - 1, p);
        Begun(a, Reach(tr, n), p, e.call);
      } else {
        AllTold(tr, n - 1, p);
        ActsMeans(tr, n - 1, p);
        if Acts(tr, n - 1, p) {
          MoveIsStep(a, p, e.net);
          StepTold(a, p, e.net, Met(tr, n - 1, p), Met(tr, n, p));
        } else {
          ToldGrows(a, Next(a, e), p, a.procs[p], Met(tr, n, p));
        }
      }
    }
  }

  lemma MoveIsStep(s: State, p: nat, net: Net)
    requires p in s.procs
    ensures Next(s, Move(p, net)) == Step(s, p, net)
  {
    hide Step;
  }

  lemma ActsMeans(tr: Trace, i: nat, p: nat)
    requires i < |tr.events| && p in Reach(tr, i).procs
    ensures var s := Reach(tr, i);
      Acts(tr, i, p) <==>
        tr.events[i].Move? && tr.events[i].p == p && Fits(s.procs[p]) && !s.procs[p].pc.Finished?
  {
    hide Reach, Fits;
  }

  /** What every answer of a lineage call means, under any interference. */
  lemma AnswerMeans(tr: Trace, p: nat, o: Outcome)
    requires Outcomes(End(tr), p) == Some(o)
    ensures OutcomeTold(End(tr), End(tr).procs[p].call, o, Met(tr, |tr.events|, p))
    ensures PublicationTold(End(tr).procs[p].call, o, Met(tr, |tr.events|, p))
  {
    hide Next;
    AllTold(tr, |tr.events|, p);
  }
}
