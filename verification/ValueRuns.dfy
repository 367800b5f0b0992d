/** Concrete runs in which a guarantee of the value protocol fails once its condition is dropped. */
module ValueRuns {
  import opened Basics
  import opened EraStore
  import opened Values
  import opened ValueProofs
  import opened ValueTheorems

  const CHUNK_BYTES: nat := 16_777_216

  function Ones(n: nat): (p: Payload)
    ensures |p| == n
  {
    seq(n, i => 1)
  }

  const HEAD_CHUNK: Payload := Ones(CHUNK_BYTES)
  const TAIL_CHUNK: Payload := [2]

  /** A streamed value of one full chunk and one byte. */
  const STREAMED: Content := Chunked([HEAD_CHUNK, TAIL_CHUNK], true)

  const HEAD_ENTRY: Entry := Entry(CHUNK_BYTES, ChunkSha(HEAD_CHUNK))
  const TAIL_ENTRY: Entry := Entry(1, ChunkSha(TAIL_CHUNK))

  const HEAD_ADDR: ChunkAddr := ChunkAddr(0, 0, ChunkSha(HEAD_CHUNK))
  const TAIL_ADDR: ChunkAddr := ChunkAddr(0, 0, ChunkSha(TAIL_CHUNK))

  const OURS: Control := Cell(0, 0, Manifest(Commit(0, ATTEMPTS), [HEAD_ENTRY, TAIL_ENTRY]))

  const FIRST: Bind := Bind(0, 0, ATTEMPTS)

  function Plain(net: Net): Turn { Turn(net, 2, {}, HEAD_ADDR) }

  const GO: Turn := Plain(Deliver)

  function Picked(k: nat): Turn { Turn(Deliver, k, {}, HEAD_ADDR) }

  lemma OursIsTarget()
    ensures Target(0, Create(STREAMED), FIRST) == OURS
  {
    assert EntriesOf(STREAMED.chunks) == [HEAD_ENTRY, TAIL_ENTRY];
  }

  lemma RunStep(events: seq<Event>, e: Event)
    ensures Run(INITIAL, events + [e]) == Next(Run(INITIAL, events), e)
  {
    assert (events + [e])[..|events|] == events;
  }

  // ---- The streamed create up to its control PUT ---------------------------------

  function Uploading(i: nat): Pc {
    if i == 0 then Stamp(ATTEMPTS)
    else if i == 1 then FenceRead(FIRST)
    else if i == 2 then Staging(FIRST, [ToPut(CHUNK_TRIES), ToPut(CHUNK_TRIES)])
    else if i == 3 then Staging(FIRST, [Confirmed, ToPut(CHUNK_TRIES)])
    else if i == 4 then Staging(FIRST, [Confirmed, Confirmed])
    else Put(FIRST)
  }

  /** Call 0 after its first `i` moves, alone in the store. */
  function Upload(i: nat): State {
    INITIAL.(
      procs := map[0 := Proc(Create(STREAMED), Uploading(i))],
      chunks := if i < 3 then map[] else if i < 4 then map[HEAD_ADDR := HEAD_CHUNK]
                else map[HEAD_ADDR := HEAD_CHUNK, TAIL_ADDR := TAIL_CHUNK])
  }

  const UPLOAD: seq<Event> := [
    Begin(0, Create(STREAMED)), Move(0, GO), Move(0, GO), Move(0, Picked(0)), Move(0, Picked(1))]

  function UploadMove(i: nat): Event { Move(0, if i == 2 then Picked(0) else if i == 3 then Picked(1) else GO) }

  lemma UploadStarts(i: nat)
    requires i < 2
    ensures Next(Upload(i), UploadMove(i)) == Upload(i + 1)
  {
    hide Ones;
    if i == 1 { assert StartStaging(Create(STREAMED), FIRST) == Uploading(2); }
    assert Next(Upload(i), UploadMove(i)).procs == Upload(i + 1).procs;
  }

  lemma UploadPuts(i: nat)
    requires 2 <= i < 4
    ensures Next(Upload(i), UploadMove(i)) == Upload(i + 1)
  {
    hide Ones;
    assert Uploading(i).phases[i - 2 := Confirmed] == Uploading(i + 1).phases;
    assert Next(Upload(i), UploadMove(i)).procs == Upload(i + 1).procs;
    assert Next(Upload(i), UploadMove(i)).chunks == Upload(i + 1).chunks;
  }

  lemma Uploaded()
    ensures Run(INITIAL, UPLOAD) == Upload(4)
  {
    hide Next;
    assert UPLOAD[..4][..3][..2][..1][..0] == [];
    assert Run(INITIAL, UPLOAD[..1]) == Upload(0) by { Began(); }
    UploadStarts(0);
    UploadStarts(1);
    UploadPuts(2);
    UploadPuts(3);
    assert UPLOAD == UPLOAD[..4] + [UPLOAD[4]];
    assert UPLOAD[..4] == UPLOAD[..3] + [UPLOAD[3]];
    assert UPLOAD[..3] == UPLOAD[..2] + [UPLOAD[2]];
    assert UPLOAD[..2] == UPLOAD[..1] + [UPLOAD[1]];
    RunStep(UPLOAD[..1], UPLOAD[1]);
    RunStep(UPLOAD[..2], UPLOAD[2]);
    RunStep(UPLOAD[..3], UPLOAD[3]);
    RunStep(UPLOAD[..4], UPLOAD[4]);
  }

  lemma Began()
    ensures Run(INITIAL, UPLOAD[..1]) == Upload(0)
  {
    assert UPLOAD[..1] == [] + [UPLOAD[0]];
    RunStep([], UPLOAD[0]);
    assert Run(INITIAL, []) == INITIAL;
    assert Next(INITIAL, UPLOAD[0]).procs == Upload(0).procs;
  }

  lemma Extended(prefix: seq<Event>, rest: seq<Event>, i: nat)
    requires i < |rest|
    ensures Run(INITIAL, prefix + rest[..i + 1]) == Next(Run(INITIAL, prefix + rest[..i]), rest[i])
  {
    assert prefix + rest[..i + 1] == (prefix + rest[..i]) + [rest[i]];
    RunStep(prefix + rest[..i], rest[i]);
  }

  // ---- "Lost" although ours landed ---------------------------------------------------

  const RIVAL: Control := Cell(0, 0, Inline([7]))

  /**
   A rival create (call 2) is stamped before our manifest lands and its reply is lost; a destroy
   (call 1) then closes the incarnation; the rival's PUT takes our generation; the oracle reads it.
  */
  const DISPLACING: seq<Event> := [
    Move(0, GO), Begin(2, Create(Whole([7]))), Move(2, GO), Move(0, Plain(LoseReply)),
    Begin(1, Destroy), Move(1, GO), Move(1, GO), Move(1, GO), Move(1, GO), Move(1, GO),
    Move(2, GO), Move(0, GO), Move(0, GO)]

  function DisplacedStore(i: nat): Store<Body> {
    var log := [Wrote(0, OURS, None, 0), Erased(OURS, 1), Wrote(2, RIVAL, None, 1)];
    Store(if i < 4 then None else if i < 10 then Some(OURS) else if i < 11 then None else Some(RIVAL),
          if i < 9 then None else Some(1),
          if i < 7 then None else Some(Tombstone(0, 0)),
          if i < 4 then [] else if i < 10 then log[..1] else if i < 11 then log[..2] else log)
  }

  function DisplacedProcs(i: nat): map<nat, Proc> {
    var ours := Proc(Create(STREAMED),
      if i < 1 then Uploading(4) else if i < 4 then Put(FIRST) else if i < 12 then OracleFloor(FIRST)
      else if i < 13 then OracleRead(FIRST) else Finished(LostConflict(OURS)));
    var rival := Proc(Create(Whole([7])),
      if i < 3 then Stamp(ATTEMPTS) else if i < 11 then Put(FIRST) else Recheck(FIRST));
    var destroyer := Proc(Destroy,
      if i < 6 then DestroyLoad else if i < 7 then TombPut(OURS) else if i < 8 then BumpRead(OURS, ATTEMPTS)
      else if i < 9 then BumpPut(OURS, ATTEMPTS, None) else if i < 10 then TailDelete(OURS) else Finished(Destroyed));
    if i < 2 then map[0 := ours]
    else if i < 5 then map[0 := ours, 2 := rival]
    else map[0 := ours, 1 := destroyer, 2 := rival]
  }

  function DisplacedStage(i: nat): State {
    Upload(4).(store := DisplacedStore(i), procs := DisplacedProcs(i))
  }

  lemma DisplacedBefore(i: nat)
    requires i < 3
    ensures Next(DisplacedStage(i), DISPLACING[i]) == DisplacedStage(i + 1)
  {
    OursIsTarget();
    hide EntriesOf, StartStaging;
    assert Next(DisplacedStage(i), DISPLACING[i]).procs == DisplacedProcs(i + 1);
  }

  lemma DisplacedPut(i: nat)
    requires 3 <= i < 4
    ensures Next(DisplacedStage(i), DISPLACING[i]) == DisplacedStage(i + 1)
  {
    OursIsTarget();
    hide EntriesOf, StartStaging, References, Verified, Staged;
    assert Next(DisplacedStage(i), DISPLACING[i]).procs == DisplacedProcs(i + 1);
  }

  lemma DisplacedLoad(i: nat)
    requires 4 <= i < 6
    ensures Next(DisplacedStage(i), DISPLACING[i]) == DisplacedStage(i + 1)
  {
    hide Resume;
    hide Target, EntriesOf, StartStaging, References, Verified, Adjudicate, Staged, Retry;
    assert Next(DisplacedStage(i), DISPLACING[i]).procs == DisplacedProcs(i + 1);
  }

  lemma DisplacedTomb(i: nat)
    requires i == 6
    ensures Next(DisplacedStage(i), DISPLACING[i]) == DisplacedStage(i + 1)
  {
    hide Target, EntriesOf, StartStaging, References, Verified, Adjudicate, Staged, Retry;
    assert Next(DisplacedStage(i), DISPLACING[i]).procs == DisplacedProcs(i + 1);
  }

  lemma DisplacedBump(i: nat)
    requires 7 <= i < 9
    ensures Next(DisplacedStage(i), DISPLACING[i]) == DisplacedStage(i + 1)
  {
    hide Target, EntriesOf, StartStaging, References, Verified, Adjudicate, Staged, Retry;
    assert Next(DisplacedStage(i), DISPLACING[i]).procs == DisplacedProcs(i + 1);
  }

  lemma DisplacedErase(i: nat)
    requires i == 9
    ensures Next(DisplacedStage(i), DISPLACING[i]) == DisplacedStage(i + 1)
  {
    hide Target, EntriesOf, StartStaging, References, Verified, Adjudicate, Staged, Retry;
    assert Next(DisplacedStage(i), DISPLACING[i]).procs == DisplacedProcs(i + 1);
  }

  lemma DisplacedAfter(i: nat)
    requires 10 <= i < 11
    ensures Next(DisplacedStage(i), DISPLACING[i]) == DisplacedStage(i + 1)
  {
    OursIsTarget();
    hide EntriesOf, StartStaging, References, Verified, Staged;
    assert Next(DisplacedStage(i), DISPLACING[i]).procs == DisplacedProcs(i + 1);
  }

  lemma DisplacedVerdict(i: nat)
    requires 11 <= i < 13
    ensures Next(DisplacedStage(i), DISPLACING[i]) == DisplacedStage(i + 1)
  {
    OursIsTarget();
    hide EntriesOf, StartStaging, References, Verified, Staged;
    assert Next(DisplacedStage(i), DISPLACING[i]).procs == DisplacedProcs(i + 1);
  }

  lemma {:induction false} DisplacedReached(i: nat)
    requires i <= |DISPLACING|
    ensures Run(INITIAL, UPLOAD + DISPLACING[..i]) == DisplacedStage(i)
  {
    hide Next;
    if i == 0 {
      Uploaded();
      assert UPLOAD + DISPLACING[..0] == UPLOAD;
      assert DisplacedProcs(0) == Upload(4).procs;
    } else {
      DisplacedReached(i - 1);
      Extended(UPLOAD, DISPLACING, i - 1);
      if i <= 3 {
        DisplacedBefore(i - 1);
      } else if i <= 4 {
        DisplacedPut(i - 1);
      } else if i <= 6 {
        DisplacedLoad(i - 1);
      } else if i == 7 {
        DisplacedTomb(i - 1);
      } else if i <= 9 {
        DisplacedBump(i - 1);
      } else if i == 10 {
        DisplacedErase(i - 1);
      } else if i <= 11 {
        DisplacedAfter(i - 1);
      } else {
        DisplacedVerdict(i - 1);
      }
    }
  }

  /**
   A `LostConflict` answer is no proof that ours never landed once a destroy has closed the bound
   incarnation: here it is given although our manifest stood.
  */
  lemma LostAlthoughLanded()
    ensures var events := UPLOAD + DISPLACING;
      && Disciplined(events)
      && Outcomes(End(events), 0) == Some(LostConflict(OURS))
      && LandedOpen(End(events).store.log, 0, OURS)
  {
    hide Run, OURS, DisplacedStage;
    DisplacedReached(13);
    DisplacedEnd();
    DisplacedEvents();
  }

  lemma DisplacedEnd()
    ensures var s := DisplacedStage(13);
      Outcomes(s, 0) == Some(LostConflict(OURS)) && LandedOpen(s.store.log, 0, OURS)
  {
    assert OpenAt(DisplacedStage(13).store.log, 0);
  }

  lemma DisplacedEvents()
    ensures Disciplined(UPLOAD + DISPLACING)
    ensures End(UPLOAD + DISPLACING) == Run(INITIAL, UPLOAD + DISPLACING[..13])
  {
    hide Run;
    var events := UPLOAD + DISPLACING;
    assert events[..|events|] == events && DISPLACING[..13] == DISPLACING;
  }

  // ---- A sweep between staging and publication -----------------------------------------

  const BOTH: set<ChunkAddr> := {HEAD_ADDR, TAIL_ADDR}

  /** The fence goes up and a sweep (call 1) runs after the chunks are staged, before the manifest. */
  const SWEEPING: seq<Event> := [
    SetFence(true), Begin(1, Sweep), Move(1, GO), Move(1, Turn(Deliver, 0, BOTH, HEAD_ADDR)),
    Move(1, GO), Move(1, GO), Move(1, GO), Move(1, Turn(Deliver, 0, {}, TAIL_ADDR)),
    Move(0, GO), Move(0, GO), Move(0, GO)]

  function SweptStage(i: nat): State {
    var writer := Proc(Create(STREAMED),
      if i < 9 then Uploading(4) else if i < 10 then Put(FIRST)
      else if i < 11 then Recheck(FIRST) else Finished(Acked(OURS)));
    var sweeper := Proc(Sweep,
      if i < 3 then SweepFence else if i < 4 then SweepList else if i < 5 then SweepFloor(BOTH)
      else if i < 6 then SweepControl(BOTH) else if i < 7 then SweepDelete(BOTH)
      else if i < 8 then SweepDelete({TAIL_ADDR}) else SweepDelete({}));
    Upload(4).(
      fence := i > 0,
      chunks := if i < 7 then Upload(4).chunks else if i < 8 then map[TAIL_ADDR := TAIL_CHUNK] else map[],
      store := if i < 10 then INITIAL.store else Store(Some(OURS), None, None, [Wrote(0, OURS, None, 0)]),
      procs := if i < 2 then map[0 := writer] else map[0 := writer, 1 := sweeper])
  }

  lemma SweptStart(i: nat)
    requires i < 3
    ensures Next(SweptStage(i), SWEEPING[i]) == SweptStage(i + 1)
  {
    hide Target, EntriesOf, StartStaging, References, Verified, Adjudicate, Staged, Retry, Ones;
    assert Next(SweptStage(i), SWEEPING[i]).procs == SweptStage(i + 1).procs;
  }

  lemma SweptPages(i: nat)
    requires 3 <= i < 6
    ensures Next(SweptStage(i), SWEEPING[i]) == SweptStage(i + 1)
  {
    hide Target, EntriesOf, StartStaging, References, Verified, Adjudicate, Staged, Retry, Ones;
    assert Next(SweptStage(i), SWEEPING[i]).procs == SweptStage(i + 1).procs;
  }

  /** A sweep's delete request, delivered. */
  lemma Deleted(s: State, p: nat, todo: set<ChunkAddr>, turn: Turn)
    requires p in s.procs && s.procs[p] == Proc(Sweep, SweepDelete(todo)) && turn.net == Deliver && turn.addr in todo
    ensures Next(s, Move(p, turn)) ==
      s.(chunks := s.chunks - {turn.addr}, procs := s.procs[p := Proc(Sweep, SweepDelete(todo - {turn.addr}))])
  {
  }

  lemma TwoChunks()
    ensures HEAD_ADDR != TAIL_ADDR && BOTH - {HEAD_ADDR} == {TAIL_ADDR} && {TAIL_ADDR} - {TAIL_ADDR} == {}
    ensures Upload(4).chunks - {HEAD_ADDR} == map[TAIL_ADDR := TAIL_CHUNK]
    ensures map[TAIL_ADDR := TAIL_CHUNK] - {TAIL_ADDR} == map[]
  {
    hide Ones;
  }

  lemma SweptHead()
    ensures Next(SweptStage(6), SWEEPING[6]) == SweptStage(7)
  {
    hide Next, BOTH, HEAD_ADDR, TAIL_ADDR, Upload;
    TwoChunks();
    assert SweptStage(6).procs[1] == Proc(Sweep, SweepDelete(BOTH));
    HeadInBoth();
    Deleted(SweptStage(6), 1, BOTH, GO);
    assert Next(SweptStage(6), SWEEPING[6]).procs == SweptStage(7).procs;
  }

  lemma HeadInBoth()
    ensures HEAD_ADDR in BOTH
  {}

  lemma SweptTail()
    ensures Next(SweptStage(7), SWEEPING[7]) == SweptStage(8)
  {
    hide Next, BOTH, HEAD_ADDR, TAIL_ADDR, Upload;
    TwoChunks();
    Deleted(SweptStage(7), 1, {TAIL_ADDR}, Turn(Deliver, 0, {}, TAIL_ADDR));
    assert Next(SweptStage(7), SWEEPING[7]).procs == SweptStage(8).procs;
  }

  lemma SweptCommit(i: nat)
    requires 8 <= i < 11
    ensures Next(SweptStage(i), SWEEPING[i]) == SweptStage(i + 1)
  {
    OursIsTarget();
    hide EntriesOf, StartStaging, References, Ones;
    assert Next(SweptStage(i), SWEEPING[i]).procs == SweptStage(i + 1).procs;
  }

  lemma {:induction false} SweptReached(i: nat)
    requires i <= |SWEEPING|
    ensures Run(INITIAL, UPLOAD + SWEEPING[..i]) == SweptStage(i)
  {
    hide Next;
    if i == 0 {
      Uploaded();
      assert UPLOAD + SWEEPING[..0] == UPLOAD;
      assert SweptStage(0).procs == Upload(4).procs;
    } else {
      SweptReached(i - 1);
      Extended(UPLOAD, SWEEPING, i - 1);
      if i <= 3 {
        SweptStart(i - 1);
      } else if i <= 6 {
        SweptPages(i - 1);
      } else if i == 7 {
        SweptHead();
      } else if i == 8 {
        SweptTail();
      } else {
        SweptCommit(i - 1);
      }
    }
  }

  lemma SweptEnd()
    ensures var s := SweptStage(11);
      && s.chunks == map[] && s.store.cell == Some(OURS) && !s.retired && Outcomes(s, 0) == Some(Acked(OURS))
  {
  }

  /**
   Without quiescence a sweep breaks an acknowledged value: the chunks go after they were confirmed,
   and the manifest is then published over nothing.
  */
  lemma SweepUnderWriterLosesChunks()
    ensures var events := UPLOAD + SWEEPING;
      && Disciplined(events)
      && Outcomes(End(events), 0) == Some(Acked(OURS))
      && End(events).store.cell == Some(OURS) && !End(events).retired
      && forall addr :: addr in References(OURS) ==> addr !in End(events).chunks
  {
    hide References, SweptStage, Run, Upload, OURS;
    SweptEnd();
    SweptReached(11);
    SweptEvents();
  }

  lemma SweptEvents()
    ensures Disciplined(UPLOAD + SWEEPING)
    ensures End(UPLOAD + SWEEPING) == Run(INITIAL, UPLOAD + SWEEPING[..11])
  {
    hide Run;
    var events := UPLOAD + SWEEPING;
    assert SWEEPING[..11] == SWEEPING && events[..|events|] == events;
  }

  // ---- A raw delete lets one tag be consumed twice ----------------------------------------

  const SMALL: Control := Cell(0, 0, Inline([1]))
  const NEXT: Control := Cell(0, 1, Inline([2]))
  const SECOND: Bind := Bind(0, 1, ATTEMPTS)

  /** Call `p` creates the value and call `q` replaces it, each alone and undisturbed. */
  function Lifetime(p: nat, q: nat): seq<Event> {
    [Begin(p, Create(Whole([1]))), Move(p, GO), Move(p, GO), Move(p, GO),
     Begin(q, CompareExchange(SMALL, Whole([2]))), Move(q, GO), Move(q, GO), Move(q, GO), Move(q, GO)]
  }

  function LivedStage(s: State, p: nat, q: nat, i: nat): State {
    var creator := Proc(Create(Whole([1])),
      if i < 2 then Stamp(ATTEMPTS) else if i < 3 then Put(FIRST) else if i < 4 then Recheck(FIRST)
      else Finished(Acked(SMALL)));
    var swapper := Proc(CompareExchange(SMALL, Whole([2])),
      if i < 6 then CasRead else if i < 7 then CasGate else if i < 8 then Put(SECOND) else if i < 9 then Recheck(SECOND)
      else Finished(Acked(NEXT)));
    s.(
      store := s.store.(
        cell := if i < 3 then s.store.cell else if i < 8 then Some(SMALL) else Some(NEXT),
        log := if i < 3 then s.store.log else if i < 8 then s.store.log + [Wrote(p, SMALL, None, 0)]
               else s.store.log + [Wrote(p, SMALL, None, 0)] + [Wrote(q, NEXT, Some(SMALL), 0)]),
      procs := if i < 1 then s.procs else if i < 5 then s.procs[p := creator] else s.procs[p := creator][q := swapper])
  }

  lemma CreatorStart(s: State, p: nat, q: nat, i: nat)
    requires p != q && p !in s.procs && q !in s.procs
    requires s.store.cell.None? && Era(s.store) == 0
    requires i < 2
    ensures Next(LivedStage(s, p, q, i), Lifetime(p, q)[i]) == LivedStage(s, p, q, i + 1)
  {
    hide EntriesOf, StartStaging, References, Verified, Adjudicate, Staged, Retry, IfMatch;
    assert Next(LivedStage(s, p, q, i), Lifetime(p, q)[i]).procs == LivedStage(s, p, q, i + 1).procs;
  }

  lemma CreatorPut(s: State, p: nat, q: nat, i: nat)
    requires p != q && p !in s.procs && q !in s.procs
    requires s.store.cell.None? && Era(s.store) == 0
    requires i == 2
    ensures Next(LivedStage(s, p, q, i), Lifetime(p, q)[i]) == LivedStage(s, p, q, i + 1)
  {
    hide EntriesOf, StartStaging, References, Verified, Adjudicate, Staged, Retry, IfMatch;
    assert Next(LivedStage(s, p, q, i), Lifetime(p, q)[i]).procs == LivedStage(s, p, q, i + 1).procs;
  }

  lemma CreatorAck(s: State, p: nat, q: nat, i: nat)
    requires p != q && p !in s.procs && q !in s.procs
    requires s.store.cell.None? && Era(s.store) == 0
    requires i == 3
    ensures Next(LivedStage(s, p, q, i), Lifetime(p, q)[i]) == LivedStage(s, p, q, i + 1)
  {
    hide EntriesOf, StartStaging, References, Verified, Adjudicate, Staged, Retry, IfMatch;
    assert Next(LivedStage(s, p, q, i), Lifetime(p, q)[i]).procs == LivedStage(s, p, q, i + 1).procs;
  }

  lemma SwapperStart(s: State, p: nat, q: nat, i: nat)
    requires p != q && p !in s.procs && q !in s.procs
    requires s.store.cell.None? && Era(s.store) == 0
    requires 4 <= i < 7
    ensures Next(LivedStage(s, p, q, i), Lifetime(p, q)[i]) == LivedStage(s, p, q, i + 1)
  {
    hide EntriesOf, StartStaging, References, Verified, Adjudicate, Staged, Retry, IfMatch;
    assert Next(LivedStage(s, p, q, i), Lifetime(p, q)[i]).procs == LivedStage(s, p, q, i + 1).procs;
  }

  lemma SwapperPut(s: State, p: nat, q: nat, i: nat)
    requires p != q && p !in s.procs && q !in s.procs
    requires s.store.cell.None? && Era(s.store) == 0
    requires i == 7
    ensures Next(LivedStage(s, p, q, i), Lifetime(p, q)[i]) == LivedStage(s, p, q, i + 1)
  {
    hide EntriesOf, StartStaging, References, Verified, Adjudicate, Staged, Retry, IfMatch;
    assert Next(LivedStage(s, p, q, i), Lifetime(p, q)[i]).procs == LivedStage(s, p, q, i + 1).procs;
  }

  lemma SwapperAck(s: State, p: nat, q: nat, i: nat)
    requires p != q && p !in s.procs && q !in s.procs
    requires s.store.cell.None? && Era(s.store) == 0
    requires i == 8
    ensures Next(LivedStage(s, p, q, i), Lifetime(p, q)[i]) == LivedStage(s, p, q, i + 1)
  {
    hide EntriesOf, StartStaging, References, Verified, Adjudicate, Staged, Retry, IfMatch;
    assert Next(LivedStage(s, p, q, i), Lifetime(p, q)[i]).procs == LivedStage(s, p, q, i + 1).procs;
  }

  lemma {:induction false} Lived(before: seq<Event>, p: nat, q: nat, i: nat)
    requires var s := Run(INITIAL, before);
      p != q && p !in s.procs && q !in s.procs && s.store.cell.None? && Era(s.store) == 0
    requires i <= 9
    ensures Run(INITIAL, before + Lifetime(p, q)[..i]) == LivedStage(Run(INITIAL, before), p, q, i)
  {
    hide Next;
    var s := Run(INITIAL, before);
    if i == 0 {
      assert before + Lifetime(p, q)[..0] == before;
    } else {
      Lived(before, p, q, i - 1);
      Extended(before, Lifetime(p, q), i - 1);
      if i <= 2 {
        CreatorStart(s, p, q, i - 1);
      } else if i == 3 {
        CreatorPut(s, p, q, i - 1);
      } else if i == 4 {
        CreatorAck(s, p, q, i - 1);
      } else if i <= 7 {
        SwapperStart(s, p, q, i - 1);
      } else if i == 8 {
        SwapperPut(s, p, q, i - 1);
      } else {
        SwapperAck(s, p, q, i - 1);
      }
    }
  }

  lemma LivedOut(s: State, p: nat, q: nat)
    requires p != q
    ensures var t := LivedStage(s, p, q, 9);
      && t.store.cell == Some(NEXT) && Era(t.store) == Era(s.store)
      && t.procs == s.procs[p := t.procs[p]][q := t.procs[q]]
      && t.procs[q].call == CompareExchange(SMALL, Whole([2]))
      && Outcomes(t, q) == Some(Acked(NEXT))
  {
  }

  /** A raw delete rewinds the version without closing the incarnation, and the old tag works again. */
  lemma RawDeleteReusesTag()
    ensures var events := Lifetime(0, 1) + [RawDelete] + Lifetime(2, 3);
      && Outcomes(End(events), 1) == Some(Acked(NEXT)) && Outcomes(End(events), 3) == Some(Acked(NEXT))
      && End(events).procs[1].call == End(events).procs[3].call == CompareExchange(SMALL, Whole([2]))
  {
    hide Lifetime, LivedStage;
    var first, second := Lifetime(0, 1), Lifetime(2, 3);
    var s := Run(INITIAL, first);
    var events := first + [RawDelete] + second;
    LifetimeLength(0, 1);
    LifetimeLength(2, 3);
    assert [] + first[..9] == first && Run(INITIAL, []) == INITIAL;
    Lived([], 0, 1, 9);
    LivedOut(INITIAL, 0, 1);
    RunStep(first, RawDelete);
    assert Run(INITIAL, first + [RawDelete]) == s.(store := s.store.(cell := None));
    Lived(first + [RawDelete], 2, 3, 9);
    LivedOut(Run(INITIAL, first + [RawDelete]), 2, 3);
    assert first + [RawDelete] + second[..9] == events && events[..|events|] == events;
  }

  lemma LifetimeLength(p: nat, q: nat)
    ensures |Lifetime(p, q)| == 9
  {
  }
}
