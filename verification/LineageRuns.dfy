/** A concrete run of the lineage protocol in which an answer is not what it seems. */
module LineageRuns {
  import opened Basics
  import opened EraStore
  import opened Records
  import opened Lineage
  import opened LineageTheorems

  const FIRST: Record := Record(0, 0, None, [])

  const HEAD: Head := Cell(0, 0, HeadBody(0, DigestOf(FIRST), None))

  /**
   A state read (call 0) finds no head; a genesis (call 1) then creates one; a destroy (call 2)
   writes its witness; the state read finds the witness and answers.
  */
  const RACED_READ: seq<Event> := [
    Begin(0, ReadState), Move(0, Deliver),
    Begin(1, Genesis([FIRST])), Move(1, Deliver), Move(1, Deliver), Move(1, Deliver), Move(1, Deliver),
    Begin(2, Destroy), Move(2, Deliver), Move(2, Deliver),
    Move(0, Deliver)]

  /** The three calls' program counters and the store after the first `i` events. */
  function Stage(i: nat): State {
    var reader := Proc(ReadState,
      if i < 2 then StateHead else if i < 11 then StateTomb(0) else Finished(SeenDestroyed(Tombstone(0, 0), 0)));
    var creator := Proc(Genesis([FIRST]),
      if i < 4 then Publishing(0) else if i < 5 then ReadingBack(0) else if i < 6 then StampRead(ATTEMPTS)
      else if i < 7 then HeadPut(ATTEMPTS, 0) else HeadRecheck(ATTEMPTS, 0));
    var destroyer := Proc(Destroy,
      if i < 9 then DestroyLoad else if i < 10 then TombPut(HEAD) else BumpRead(HEAD, ATTEMPTS));
    State(0, true,
      if i < 7 then Store(None, None, None, [])
      else Store(Some(HEAD), None, if i < 10 then None else Some(Tombstone(0, 0)), [Wrote(1, HEAD, None, 0)]),
      if i < 4 then map[] else map[DigestOf(FIRST) := RecordBlob(FIRST)],
      if i < 1 then map[] else if i < 3 then map[0 := reader]
      else if i < 8 then map[0 := reader, 1 := creator] else map[0 := reader, 1 := creator, 2 := destroyer],
      [])
  }

  lemma FirstIsBatch()
    ensures BatchOk(0, [FIRST], 0, None)
  {
    assert LinkedAt(0, [FIRST], 0, None, 0);
  }

  lemma ReaderStart(i: nat)
    requires i < 2
    ensures Next(Stage(i), RACED_READ[i]) == Stage(i + 1)
  {
    hide BatchOk, SuccessorOk;
    assert Next(Stage(i), RACED_READ[i]).procs == Stage(i + 1).procs;
  }

  lemma ReaderAnswer(i: nat)
    requires i == 10
    ensures Next(Stage(i), RACED_READ[i]) == Stage(i + 1)
  {
    hide BatchOk, SuccessorOk;
    assert Next(Stage(i), RACED_READ[i]).procs == Stage(i + 1).procs;
  }

  lemma CreatorStep(i: nat)
    requires 2 <= i < 7
    ensures Next(Stage(i), RACED_READ[i]) == Stage(i + 1)
  {
    FirstIsBatch();
    hide BatchOk, SuccessorOk;
    var a, b := Next(Stage(i), RACED_READ[i]), Stage(i + 1);
    assert a.procs == b.procs && a.objects == b.objects;
  }

  lemma DestroyerStep(i: nat)
    requires 7 <= i < 10
    ensures Next(Stage(i), RACED_READ[i]) == Stage(i + 1)
  {
    hide BatchOk, SuccessorOk;
    assert Next(Stage(i), RACED_READ[i]).procs == Stage(i + 1).procs;
  }

  lemma StageStep(i: nat)
    requires i < |RACED_READ|
    ensures Next(Stage(i), RACED_READ[i]) == Stage(i + 1)
  {
    hide Next, Stage;
    if i < 2 {
      ReaderStart(i);
    } else if i == 10 {
      ReaderAnswer(i);
    } else if i < 7 {
      CreatorStep(i);
    } else {
      DestroyerStep(i);
    }
  }

  lemma {:induction false} StageReached(i: nat)
    requires i <= |RACED_READ|
    ensures Reach(Trace(0, true, RACED_READ), i) == Stage(i)
  {
    hide Next, Stage;
    if i == 0 {
      StageZero();
    } else {
      StageReached(i - 1);
      ReachStep(Trace(0, true, RACED_READ), i - 1);
      StageStep(i - 1);
    }
  }

  lemma StageZero()
    ensures Reach(Trace(0, true, RACED_READ), 0) == Stage(0)
  {
    assert RACED_READ[..0] == [];
  }

  ghost predicate IsDestroyed(s: State) { s.store.cell.None? && s.store.tomb.Some? }

  /** The answer `Destroyed` need not have been true at any instant of the run. */
  lemma DestroyedAnswerNeverHeld()
    ensures var tr := Trace(0, true, RACED_READ);
      && (forall i :: 0 <= i <= |tr.events| ==> !IsDestroyed(Reach(tr, i)))
      && Outcomes(End(tr), 0) == Some(SeenDestroyed(Tombstone(0, 0), 0))
  {
    var tr := Trace(0, true, RACED_READ);
    hide Next;
    forall i | 0 <= i <= |tr.events| ensures !IsDestroyed(Reach(tr, i)) {
      StageReached(i);
    }
    StageReached(11);
  }
}
