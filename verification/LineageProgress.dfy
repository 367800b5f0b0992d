/** What a call achieves when nobody disturbs it: the guards of the protocol turn no good request away. */
module LineageProgress {
  import opened Basics
  import opened EraStore
  import opened Records
  import opened Lineage
  import opened LineageProofs

  /** Call `p` takes `n` steps alone, every request delivered. */
  function Alone(s: State, p: nat, n: nat): State
    decreases n
  {
    if n == 0 then s else Alone(Next(s, Move(p, Deliver)), p, n - 1)
  }

  lemma {:induction false} AloneAdds(s: State, p: nat, m: nat, n: nat)
    ensures Alone(Alone(s, p, m), p, n) == Alone(s, p, m + n)
    decreases m
  {
    hide Next;
    if m > 0 {
      AloneAdds(Next(s, Move(p, Deliver)), p, m - 1, n);
    }
  }

  predicate At(s: State, p: nat, call: Call, pc: Pc) { p in s.procs && s.procs[p] == Proc(call, pc) }

  /** Objects stored under their own digests, as in every reachable state. */
  ghost predicate Faithful(s: State) { forall d :: d in s.objects ==> s.objects[d] == d.blob }

  lemma PublishesOne(s: State, p: nat, call: Call, k: nat)
    requires At(s, p, call, Publishing(k)) && Appends(call) && k < |call.records| && Faithful(s)
    ensures var t := Alone(s, p, 2);
      && t.store == s.store && t.lineage == s.lineage && Faithful(t)
      && At(t, p, call, if k + 1 < |call.records| then Publishing(k + 1)
                        else if call.Genesis? then StampRead(ATTEMPTS) else CasPut)
  {
    hide Faithful;
    var a := Next(s, Move(p, Deliver));
    var d := DigestOf(call.records[k]);
    assert At(a, p, call, ReadingBack(k)) && a.store == s.store && a.lineage == s.lineage;
    assert a.objects == s.objects || (d !in s.objects && a.objects == s.objects[d := RecordBlob(call.records[k])]);
    StaysFaithful(s, a, d, RecordBlob(call.records[k]));
    var t := Next(a, Move(p, Deliver));
    assert d in a.objects && a.objects[d] == RecordBlob(call.records[k]);
    assert t.store == a.store && t.objects == a.objects;
    StaysFaithful(a, t, d, RecordBlob(call.records[k]));
    assert Alone(s, p, 2) == Alone(a, p, 1) == Alone(t, p, 0) == t;
  }

  lemma StaysFaithful(s: State, t: State, d: Digest, blob: Blob)
    requires Faithful(s) && d == Sha256(blob)
    requires t.objects == s.objects || t.objects == s.objects[d := blob]
    ensures Faithful(t) && (d in t.objects ==> t.objects[d] == blob)
  {
  }

  lemma {:induction false} PublishesAll(s: State, p: nat, call: Call, k: nat) returns (n: nat)
    requires At(s, p, call, Publishing(k)) && Appends(call) && k < |call.records| && Faithful(s)
    ensures var t := Alone(s, p, n);
      && t.store == s.store && t.lineage == s.lineage
      && At(t, p, call, if call.Genesis? then StampRead(ATTEMPTS) else CasPut)
    decreases |call.records| - k
  {
    hide Next, Faithful;
    PublishesOne(s, p, call, k);
    n := 2;
    if k + 1 < |call.records| {
      var m := PublishesAll(Alone(s, p, 2), p, call, k + 1);
      AloneAdds(s, p, 2, m);
      n := 2 + m;
    }
  }

  lemma Starts(s: State, p: nat, call: Call)
    requires p !in s.procs
    ensures var a := Next(s, Begin(p, call));
      At(a, p, call, Admit(s, call)) && a.store == s.store && a.lineage == s.lineage && (Faithful(s) ==> Faithful(a))
  {
    hide Admit;
  }

  lemma SuccessorOpens(s: State, p: nat, call: Call)
    requires At(s, p, call, GateRead) && call.Successor? && s.store.cell == Some(call.expected)
    requires Era(s.store) == call.expected.era && SuccessorOk(s.lineage, call) && Faithful(s)
    requires call.records != [] && Decodable(call.expected)
    ensures var t := Alone(s, p, 2);
      t.store == s.store && t.lineage == s.lineage && At(t, p, call, Publishing(0)) && Faithful(t)
  {
    hide SuccessorOk;
    var a := Next(s, Move(p, Deliver));
    assert At(a, p, call, HeadCompare) && a.store == s.store && a.objects == s.objects;
    var t := Next(a, Move(p, Deliver));
    assert t.store == s.store && t.objects == s.objects;
    assert Alone(s, p, 2) == Alone(a, p, 1) == Alone(t, p, 0) == t;
  }

  lemma SuccessorCloses(s: State, p: nat, call: Call)
    requires At(s, p, call, CasPut) && call.Successor? && Appends(call) && s.store.cell == Some(call.expected)
    requires Era(s.store) == call.expected.era
    ensures var t := Alone(s, p, 2); var h := HeadOf(s.lineage, call.records, call.expected.era);
      && At(t, p, call, Finished(Acked(h))) && t.store.cell == Some(h)
      && Era(t.store) == Era(s.store) && t.store.tomb == s.store.tomb
  {
    var a := Next(s, Move(p, Deliver));
    assert At(a, p, call, CasRecheck) && a.lineage == s.lineage && Era(a.store) == Era(s.store);
    var t := Next(a, Move(p, Deliver));
    assert Alone(s, p, 2) == Alone(a, p, 1) == Alone(t, p, 0) == t;
  }

  lemma AllFaithful(s: State)
    requires Inv(s)
    ensures Faithful(s)
  {
    InvStore(s);
    hide Inv;
  }

  /** In a proper run the standing head is one that the decoder accepts. */
  lemma StandingDecodes(s: State)
    requires Inv(s) && Proper(s) && s.store.cell.Some?
    ensures Decodable(s.store.cell.value)
  {
    StandingHeadOk(s);
    hide Inv;
    OnlyDecodableComplete(s.lineage, s.objects, s.store.cell.value);
  }

  lemma GenesisAdmitted(s: State, records: seq<Record>)
    requires BatchOk(s.lineage, records, 0, None)
    ensures Admit(s, Genesis(records)) == Publishing(0) && records != []
  {
    hide Linked;
  }

  /**
   A valid batch or single record offered with the standing head of the open incarnation is appended and
   acknowledged, from any reachable state, if nobody interferes.
  */
  lemma UndisturbedSuccessor(s: State, p: nat, call: Call) returns (n: nat)
    requires Inv(s) && Proper(s) && p !in s.procs && s.successors
    requires call.Successor? && call.records != [] && call.expected.body.lineage == s.lineage
    requires s.store.cell == Some(call.expected) && Era(s.store) == call.expected.era && SuccessorOk(s.lineage, call)
    ensures var t := Alone(Next(s, Begin(p, call)), p, n); var h := HeadOf(s.lineage, call.records, call.expected.era);
      At(t, p, call, Finished(Acked(h))) && t.store.cell == Some(h)
  {
    hide Inv, Next, Faithful, SuccessorOk, HeadOf, Alone, Decodable;
    var a := Next(s, Begin(p, call));
    AllFaithful(s);
    StandingDecodes(s);
    Starts(s, p, call);
    hide Admit;
    SuccessorOpens(a, p, call);
    var m := PublishesAll(Alone(a, p, 2), p, call, 0);
    AloneAdds(a, p, 2, m);
    SuccessorCloses(Alone(a, p, 2 + m), p, call);
    AloneAdds(a, p, 2 + m, 2);
    n := 2 + m + 2;
  }

  lemma GenesisCloses(s: State, p: nat, call: Call)
    requires At(s, p, call, StampRead(ATTEMPTS)) && call.Genesis? && Appends(call) && s.store.cell.None?
    ensures var t := Alone(s, p, 3); var h := HeadOf(s.lineage, call.records, Era(s.store));
      && At(t, p, call, Finished(Acked(h))) && t.store.cell == Some(h)
      && Era(t.store) == Era(s.store) && t.store.tomb == s.store.tomb
  {
    var a := Next(s, Move(p, Deliver));
    assert At(a, p, call, HeadPut(ATTEMPTS, Era(s.store))) && a.lineage == s.lineage && a.store == s.store;
    var b := Next(a, Move(p, Deliver));
    assert At(b, p, call, HeadRecheck(ATTEMPTS, Era(s.store))) && b.lineage == s.lineage &&
      Era(b.store) == Era(s.store);
    var t := Next(b, Move(p, Deliver));
    assert Alone(s, p, 3) == Alone(a, p, 2) == Alone(b, p, 1) == Alone(t, p, 0) == t;
  }

  /** A valid first batch creates the head of the current incarnation, also after a destroy. */
  lemma UndisturbedGenesis(s: State, p: nat, records: seq<Record>) returns (n: nat)
    requires Inv(s) && p !in s.procs && s.store.cell.None? && BatchOk(s.lineage, records, 0, None)
    ensures var t := Alone(Next(s, Begin(p, Genesis(records))), p, n);
      var h := HeadOf(s.lineage, records, Era(s.store));
      At(t, p, Genesis(records), Finished(Acked(h))) && t.store.cell == Some(h)
  {
    hide Inv, Next, Faithful, BatchOk, Admit, HeadOf, Alone;
    var call := Genesis(records);
    var a := Next(s, Begin(p, call));
    AllFaithful(s);
    Starts(s, p, call);
    GenesisAdmitted(s, records);
    var m := PublishesAll(a, p, call, 0);
    GenesisCloses(Alone(a, p, m), p, call);
    AloneAdds(a, p, m, 3);
    n := m + 3;
  }

  /** The tombstone after a destroy: an earlier one stays, otherwise it names the head destroyed. */
  function Witness(s: State): Tombstone
    requires s.store.cell.Some?
  {
    if s.store.tomb.Some? then s.store.tomb.value else Tombstone(s.store.cell.value.era, s.store.cell.value.rank)
  }

  lemma DestroyWitnesses(s: State, p: nat, h: Head)
    requires At(s, p, Destroy, DestroyLoad) && s.store.cell == Some(h) && Decodable(h)
    ensures var t := Alone(s, p, 2);
      && At(t, p, Destroy, BumpRead(h, ATTEMPTS))
      && t.store.cell == Some(h) && t.store.tomb == Some(Witness(s)) && t.store.counter == s.store.counter
  {
    var a := Next(s, Move(p, Deliver));
    assert At(a, p, Destroy, TombPut(h)) && a.store == s.store;
    var t := Next(a, Move(p, Deliver));
    assert Alone(s, p, 2) == Alone(a, p, 1) == Alone(t, p, 0) == t;
  }

  lemma DestroyDeletes(s: State, p: nat, h: Head)
    requires At(s, p, Destroy, TailDelete(h)) && s.store.cell == Some(h)
    ensures var t := Alone(s, p, 1);
      && At(t, p, Destroy, Finished(Destroyed))
      && t.store.cell.None? && t.store.tomb == s.store.tomb && Era(t.store) == Era(s.store)
  {
    var t := Next(s, Move(p, Deliver));
    assert Alone(s, p, 1) == Alone(t, p, 0) == t;
  }

  /** A destroy leaves an empty key, a tombstone, and the next incarnation. */
  lemma UndisturbedDestroy(s: State, p: nat, h: Head)
    requires p !in s.procs && s.store.cell == Some(h) && Decodable(h) && Era(s.store) < U64_MAX
    ensures var t := Alone(Next(s, Begin(p, Destroy)), p, 5);
      && At(t, p, Destroy, Finished(Destroyed))
      && t.store.cell.None? && t.store.tomb == Some(Witness(s)) && Era(t.store) == Era(s.store) + 1
  {
    hide Next;
    var a := Next(s, Begin(p, Destroy));
    Starts(s, p, Destroy);
    DestroyWitnesses(a, p, h);
    BumpsAgain(Alone(a, p, 2), p, h, ATTEMPTS);
    AloneAdds(a, p, 2, 2);
    DestroyDeletes(Alone(a, p, 4), p, h);
    AloneAdds(a, p, 4, 1);
  }

  // ---- The empty batch ---------------------------------------------------------------------------

  lemma EmptyBatchPublishes(s: State, p: nat, call: Call)
    requires At(s, p, call, GateRead) && EmptyBatch(call) && !call.single && s.store.cell == Some(call.expected)
    requires Era(s.store) == call.expected.era && call.expected.rank < U64_MAX && Decodable(call.expected)
    ensures var t := Alone(s, p, 4); var h := HeadFor(s.lineage, call, call.expected.era);
      At(t, p, call, Finished(Acked(h))) && t.store.cell == Some(h)
  {
    var a := Next(s, Move(p, Deliver));
    assert At(a, p, call, HeadCompare) && a.store == s.store && a.lineage == s.lineage;
    var b := Next(a, Move(p, Deliver));
    assert At(b, p, call, CasPut) && b.store == s.store && b.lineage == s.lineage;
    EmptyBatchSwaps(b, p, call);
    var c := Alone(b, p, 2);
    assert Alone(s, p, 4) == Alone(a, p, 3) == Alone(b, p, 2) == c;
  }

  lemma EmptyBatchSwaps(s: State, p: nat, call: Call)
    requires At(s, p, call, CasPut) && EmptyBatch(call) && s.store.cell == Some(call.expected)
    requires Era(s.store) == call.expected.era
    ensures var t := Alone(s, p, 2); var h := HeadFor(s.lineage, call, call.expected.era);
      && At(t, p, call, Finished(Acked(h))) && t.store.cell == Some(h)
      && Era(t.store) == Era(s.store) && t.store.tomb == s.store.tomb
  {
    var a := Next(s, Move(p, Deliver));
    assert At(a, p, call, CasRecheck) && a.lineage == s.lineage && Era(a.store) == Era(s.store);
    var t := Next(a, Move(p, Deliver));
    assert Alone(s, p, 2) == Alone(a, p, 1) == Alone(t, p, 0) == t;
  }

  /**
   An empty successor batch passes validation and is acknowledged, from any reachable state.  The head it
   publishes has the expected generation once more.  Above generation 0 it lacks the prior that the
   decoder demands, so nothing reads it again, nor is it the head of any complete history; at
   generation 0 it is the standing head byte for byte, acknowledged a second time.
  */
  lemma EmptyBatchBreaksHead(s: State, p: nat, call: Call)
    requires Inv(s) && Proper(s) && p !in s.procs && s.successors && EmptyBatch(call) && !call.single
    requires call.expected.body.lineage == s.lineage && call.expected.rank < U64_MAX
    requires s.store.cell == Some(call.expected) && Era(s.store) == call.expected.era
    ensures var t := Alone(Next(s, Begin(p, call)), p, 4); var h := HeadFor(s.lineage, call, call.expected.era);
      && At(t, p, call, Finished(Acked(h))) && t.store.cell == Some(h) && h.rank == call.expected.rank
      && (h.rank > 0 ==> !Decodable(h) && !HeadOk(t.lineage, t.objects, h))
      && (h.rank == 0 ==> h == call.expected)
  {
    StandingDecodes(s);
    hide Inv, Next, Alone;
    Starts(s, p, call);
    EmptyBatchPublishes(Next(s, Begin(p, call)), p, call);
    var t := Alone(Next(s, Begin(p, call)), p, 4);
    var h := HeadFor(s.lineage, call, call.expected.era);
    OnlyDecodableComplete(t.lineage, t.objects, h);
  }

  lemma OnlyDecodableComplete(lineage: nat, objects: Objects, h: Head)
    ensures HeadOk(lineage, objects, h) ==> Decodable(h)
  {
    if HeadOk(lineage, objects, h) {
      ChainIsLinked(lineage, h.body.digest);
      var c := Chain(lineage, h.body.digest).value;
      assert LinkedAt(lineage, c, 0, None, |c| - 1);
    }
  }

  /** Nothing reads a head that does not decode: appends, destroys and state reads all stop at it. */
  lemma UndecodableIsStuck(s: State, proc: Proc, net: Net)
    requires s.store.cell.Some? && !Decodable(s.store.cell.value) && Fits(proc)
    requires proc.pc.HeadCompare? || proc.pc.DestroyLoad? || proc.pc.StateHead?
    ensures Look(s, proc, net) in {Finished(Outcome.Malformed), Finished(Unavailable)}
  {
  }

  // ---- Every answer ------------------------------------------------------------------------------

  /** What an undisturbed call answers, by what it finds. */
  function AnswerAlone(s: State, call: Call): Outcome {
    match call
    case Genesis(records) =>
      if !BatchOk(s.lineage, records, 0, None) then Outcome.Malformed
      else if s.store.cell.Some? then Conflict
      else Acked(HeadFor(s.lineage, call, Era(s.store)))
    case Successor(_, expected, _) =>
      if !s.successors then NotAllowed
      else if expected.body.lineage != s.lineage || Era(s.store) != expected.era then Conflict
      else if s.store.cell.None? then Outcome.Incomplete
      else if !Decodable(s.store.cell.value) then Outcome.Malformed
      else if s.store.cell.value != expected then Conflict
      else if !SuccessorOk(s.lineage, call) then Outcome.Malformed
      else Acked(HeadFor(s.lineage, call, expected.era))
    case Destroy =>
      if s.store.cell.None? then Destroyed
      else if !Decodable(s.store.cell.value) then Outcome.Malformed
      else if Era(s.store) >= U64_MAX then Unavailable else Destroyed
    case ReadState =>
      if s.store.cell.Some? then
        (if Decodable(s.store.cell.value) then SeenPresent(s.store.cell.value) else Outcome.Malformed)
      else if s.store.tomb.Some? then SeenDestroyed(s.store.tomb.value, |s.store.log|) else SeenAbsent(|s.store.log|)
  }

  /** And what it leaves of the head key. */
  ghost predicate Leaves(s: State, t: State, o: Outcome) {
    match o
    case Acked(h) => t.store.cell == Some(h) && Era(t.store) == Era(s.store) && t.store.tomb == s.store.tomb
    case Destroyed =>
      if s.store.cell.None? then t.store == s.store
      else t.store.cell.None? && t.store.tomb == Some(Witness(s)) && Era(t.store) == Era(s.store) + 1
    case Unavailable => t.store.cell == s.store.cell && t.store.counter == s.store.counter
    case _ => t.store == s.store
  }

  lemma AloneOne(s: State, p: nat)
    ensures Alone(s, p, 1) == Next(s, Move(p, Deliver))
  {
    hide Next;
    assert Alone(Next(s, Move(p, Deliver)), p, 0) == Next(s, Move(p, Deliver));
  }

  /** One read of a call that is at `pc`. */
  lemma Reads(s: State, p: nat, call: Call, pc: Pc)
    requires At(s, p, call, pc) && !pc.Finished? && Fits(Proc(call, pc)) && WriteAt(s.lineage, p, Proc(call, pc)).None?
    ensures var t := Alone(s, p, 1);
      && At(t, p, call, Look(s, Proc(call, pc), Deliver))
      && t.store == s.store && t.lineage == s.lineage && t.objects == s.objects && t.successors == s.successors
  {
    hide Look, WriteAt;
    AloneOne(s, p);
  }

  lemma GenesisRefused(s: State, p: nat, call: Call)
    requires At(s, p, call, StampRead(ATTEMPTS)) && call.Genesis? && Appends(call) && s.store.cell.Some?
    ensures var t := Alone(s, p, 2); At(t, p, call, Finished(Conflict)) && t.store == s.store
  {
    Reads(s, p, call, StampRead(ATTEMPTS));
    var a := Alone(s, p, 1);
    AloneOne(a, p);
    AloneAdds(s, p, 1, 1);
  }

  lemma GenesisAnswers(s: State, p: nat, call: Call) returns (n: nat)
    requires p !in s.procs && Faithful(s) && call.Genesis?
    ensures var t := Alone(Next(s, Begin(p, call)), p, n); var o := AnswerAlone(s, call);
      At(t, p, call, Finished(o)) && Leaves(s, t, o)
  {
    hide Next, Faithful, BatchOk, HeadOf, Alone;
    var a := Next(s, Begin(p, call));
    Starts(s, p, call);
    if !BatchOk(s.lineage, call.records, 0, None) {
      n := 0;
      NoSteps(a, p);
    } else {
      GenesisAdmitted(s, call.records);
      var m := PublishesAll(a, p, call, 0);
      var b := Alone(a, p, m);
      if s.store.cell.Some? {
        GenesisRefused(b, p, call);
        AloneAdds(a, p, m, 2);
        n := m + 2;
      } else {
        GenesisCloses(b, p, call);
        AloneAdds(a, p, m, 3);
        n := m + 3;
      }
    }
  }

  lemma NoSteps(s: State, p: nat)
    ensures Alone(s, p, 0) == s
  {
  }

  lemma StateAnswers(s: State, p: nat) returns (n: nat)
    requires p !in s.procs
    ensures var t := Alone(Next(s, Begin(p, ReadState)), p, n); var o := AnswerAlone(s, ReadState);
      At(t, p, ReadState, Finished(o)) && Leaves(s, t, o)
  {
    hide Next, Alone, Decodable;
    var a := Next(s, Begin(p, ReadState));
    Starts(s, p, ReadState);
    Reads(a, p, ReadState, StateHead);
    if s.store.cell.Some? {
      n := 1;
    } else {
      Reads(Alone(a, p, 1), p, ReadState, StateTomb(|s.store.log|));
      AloneAdds(a, p, 1, 1);
      n := 2;
    }
  }

  lemma DestroyExhausted(s: State, p: nat, h: Head)
    requires At(s, p, Destroy, BumpRead(h, ATTEMPTS)) && Era(s.store) >= U64_MAX
    ensures var t := Alone(s, p, 1); At(t, p, Destroy, Finished(Unavailable)) && t.store == s.store
  {
    Reads(s, p, Destroy, BumpRead(h, ATTEMPTS));
  }

  lemma DestroyAnswers(s: State, p: nat) returns (n: nat)
    requires p !in s.procs
    ensures var t := Alone(Next(s, Begin(p, Destroy)), p, n); var o := AnswerAlone(s, Destroy);
      At(t, p, Destroy, Finished(o)) && Leaves(s, t, o)
  {
    hide Next, Alone, Decodable;
    var a := Next(s, Begin(p, Destroy));
    Starts(s, p, Destroy);
    if s.store.cell.None? || !Decodable(s.store.cell.value) {
      Reads(a, p, Destroy, DestroyLoad);
      n := 1;
    } else if Era(s.store) < U64_MAX {
      UndisturbedDestroy(s, p, s.store.cell.value);
      n := 5;
    } else {
      var h := s.store.cell.value;
      DestroyWitnesses(a, p, h);
      DestroyExhausted(Alone(a, p, 2), p, h);
      AloneAdds(a, p, 2, 1);
      n := 3;
    }
  }

  lemma SuccessorAnswers(s: State, p: nat, call: Call) returns (n: nat)
    requires p !in s.procs && Faithful(s) && call.Successor?
    ensures var t := Alone(Next(s, Begin(p, call)), p, n); var o := AnswerAlone(s, call);
      At(t, p, call, Finished(o)) && Leaves(s, t, o)
  {
    hide Next, Faithful, SuccessorOk, HeadFor, Alone, Decodable;
    var a := Next(s, Begin(p, call));
    Starts(s, p, call);
    SamePolicy(s, p, call);
    if !s.successors || call.expected.body.lineage != s.lineage {
      n := 0;
      NoSteps(a, p);
    } else {
      Reads(a, p, call, GateRead);
      if Era(s.store) != call.expected.era {
        n := 1;
      } else {
        var b := Alone(a, p, 1);
        Reads(b, p, call, HeadCompare);
        AloneAdds(a, p, 1, 1);
        n := 2;
        if s.store.cell == Some(call.expected) && Decodable(call.expected) && SuccessorOk(s.lineage, call) {
          SameFaithful(s, Alone(a, p, 2));
          var m := SuccessorAcks(Alone(a, p, 2), p, call);
          AloneAdds(a, p, 2, m);
          n := 2 + m;
        }
      }
    }
  }

  lemma SameFaithful(s: State, t: State)
    requires Faithful(s) && s.objects == t.objects
    ensures Faithful(t)
  {
  }

  lemma SamePolicy(s: State, p: nat, call: Call)
    requires p !in s.procs
    ensures Next(s, Begin(p, call)).successors == s.successors && Next(s, Begin(p, call)).objects == s.objects
  {
    hide Admit;
  }

  lemma SuccessorAcks(s: State, p: nat, call: Call) returns (n: nat)
    requires call.Successor? && At(s, p, call, if call.records == [] then CasPut else Publishing(0)) && Faithful(s)
    requires s.store.cell == Some(call.expected) && Era(s.store) == call.expected.era
    ensures var t := Alone(s, p, n); var o := Acked(HeadFor(s.lineage, call, call.expected.era));
      At(t, p, call, Finished(o)) && Leaves(s, t, o)
  {
    hide Next, Faithful, Alone, HeadOf;
    if call.records == [] {
      EmptyBatchSwaps(s, p, call);
      n := 2;
    } else {
      var m := PublishesAll(s, p, call, 0);
      SuccessorCloses(Alone(s, p, m), p, call);
      AloneAdds(s, p, m, 2);
      n := m + 2;
    }
  }

  /** An undisturbed call answers as the head key it finds determines, and leaves the key as its answer says. */
  lemma UndisturbedAnswer(s: State, p: nat, call: Call) returns (n: nat)
    requires p !in s.procs && Faithful(s)
    ensures var t := Alone(Next(s, Begin(p, call)), p, n); var o := AnswerAlone(s, call);
      At(t, p, call, Finished(o)) && Leaves(s, t, o)
  {
    hide Next, Alone, AnswerAlone, Leaves, Faithful;
    match call
    case Genesis(_) => n := GenesisAnswers(s, p, call);
    case Successor(_, _, _) => n := SuccessorAnswers(s, p, call);
    case Destroy => n := DestroyAnswers(s, p);
    case ReadState => n := StateAnswers(s, p);
  }

  // ---- A stale landing ---------------------------------------------------------------------------

  /** What landed in a closed incarnation is withdrawn before the call goes on. */
  lemma StaleLandingWithdrawn(s: State, p: nat, call: Call, pc: Pc)
    requires At(s, p, call, pc) && (pc.HeadRecheck? || pc.CasRecheck?) && Fits(Proc(call, pc))
    requires Appends(call) || EmptyBatch(call)
    requires s.store.cell == Some(Target(s.lineage, Proc(call, pc)))
    requires Era(s.store) != if pc.HeadRecheck? then pc.era else call.expected.era
    ensures var t := Alone(s, p, 2);
      && t.store.cell.None? && Era(t.store) == Era(s.store)
      && At(t, p, call, if pc.CasRecheck? then Finished(Conflict)
                        else if pc.left > 1 then StampRead(pc.left - 1) else Finished(Unavailable))
  {
    hide HeadFor;
    Reads(s, p, call, pc);
    var a := Alone(s, p, 1);
    AloneOne(a, p);
    AloneAdds(s, p, 1, 1);
  }

  // ---- A lost race for the counter -----------------------------------------------------------------

  lemma BumpLosesRace(s: State, p: nat, h: Head, left: nat, from: Option<nat>)
    requires At(s, p, Destroy, BumpPut(h, left, from)) && s.store.counter != from && left > 1
    ensures var t := Alone(s, p, 1); At(t, p, Destroy, BumpRead(h, left - 1)) && t.store == s.store
  {
    AloneOne(s, p);
  }

  lemma BumpsAgain(s: State, p: nat, h: Head, left: nat)
    requires At(s, p, Destroy, BumpRead(h, left)) && Era(s.store) < U64_MAX
    ensures var t := Alone(s, p, 2);
      && At(t, p, Destroy, TailDelete(h))
      && t.store.cell == s.store.cell && t.store.tomb == s.store.tomb && Era(t.store) == Era(s.store) + 1
  {
    var a := Next(s, Move(p, Deliver));
    assert At(a, p, Destroy, BumpPut(h, left, s.store.counter)) && a.store == s.store;
    var t := Next(a, Move(p, Deliver));
    assert Alone(s, p, 2) == Alone(a, p, 1) == Alone(t, p, 0) == t;
  }

  /** A destroy that loses the race for the counter reads it again and goes on. */
  lemma DestroyRetries(s: State, p: nat, h: Head, left: nat, from: Option<nat>)
    requires At(s, p, Destroy, BumpPut(h, left, from)) && s.store.counter != from && left > 1
    requires s.store.cell == Some(h) && Era(s.store) < U64_MAX
    ensures var t := Alone(s, p, 4);
      && At(t, p, Destroy, Finished(Destroyed))
      && t.store.cell.None? && t.store.tomb == s.store.tomb && Era(t.store) == Era(s.store) + 1
  {
    hide Next;
    BumpLosesRace(s, p, h, left, from);
    BumpsAgain(Alone(s, p, 1), p, h, left - 1);
    AloneAdds(s, p, 1, 2);
    DestroyDeletes(Alone(s, p, 3), p, h);
    AloneAdds(s, p, 3, 1);
  }
}
