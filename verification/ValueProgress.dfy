/** What a value call achieves when nobody disturbs it. */
module ValueProgress {
  import opened Basics
  import opened EraStore
  import opened Values
  import opened ValueGc

  const ANYWHERE: ChunkAddr := ChunkAddr(0, 0, ChunkSha([]))

  /** A delivered step that picks chunk `k`. */
  function Pick(k: nat): Turn { Turn(Deliver, k, {}, ANYWHERE) }

  /** Call `p` takes its steps alone. */
  function Alone(s: State, p: nat, picks: seq<nat>): State
    decreases |picks|
  {
    if picks == [] then s else Alone(Next(s, Move(p, Pick(picks[0]))), p, picks[1..])
  }

  lemma {:induction false} AloneAdds(s: State, p: nat, a: seq<nat>, b: seq<nat>)
    ensures Alone(Alone(s, p, a), p, b) == Alone(s, p, a + b)
    decreases |a|
  {
    hide Next;
    if a == [] {
      assert a + b == b;
    } else {
      AloneAdds(Next(s, Move(p, Pick(a[0]))), p, a[1..], b);
      assert (a + b)[1..] == a[1..] + b;
    }
  }

  lemma AloneOne(s: State, p: nat, k: nat)
    ensures Alone(s, p, [k]) == Next(s, Move(p, Pick(k)))
  {
    hide Next;
    assert [k][1..] == [];
  }

  predicate At(s: State, p: nat, call: Call, pc: Pc) { p in s.procs && s.procs[p] == Proc(call, pc) }

  /** The rest of the world is as it was; chunks may have been added, each under its own digest. */
  ghost predicate Still(s: State, t: State) {
    t.store == s.store && t.fence == s.fence && t.retired == s.retired && (Authentic(s.chunks) ==> Authentic(t.chunks))
  }

  lemma StageOne(s: State, p: nat, call: Call, b: Bind, phases: seq<Phase>, i: nat) returns (picks: seq<nat>)
    requires At(s, p, call, Staging(b, phases)) && Fits(s.procs[p]) && Authentic(s.chunks)
    requires i < |phases| && phases[i] == ToPut(CHUNK_TRIES)
    ensures var t := Alone(s, p, picks);
      At(t, p, call, Staging(b, phases[i := Confirmed])) && Still(s, t)
  {
    var bytes := call.content.chunks[i];
    var addr := ChunkAddr(b.era, b.version, ChunkSha(bytes));
    var a := Next(s, Move(p, Pick(i)));
    AloneOne(s, p, i);
    picks := [i];
    if addr in s.chunks {
      var waiting := phases[i := ToVerify(CHUNK_TRIES)];
      assert At(a, p, call, Staging(b, waiting)) && a.chunks == s.chunks && a.store == s.store;
      VerifyOne(a, p, call, b, waiting, i);
      assert waiting[i := Confirmed] == phases[i := Confirmed];
      AloneOne(a, p, i);
      AloneAdds(s, p, [i], [i]);
      picks := [i] + [i];
    } else {
      assert a.chunks == s.chunks[addr := bytes];
    }
  }

  lemma VerifyOne(s: State, p: nat, call: Call, b: Bind, phases: seq<Phase>, i: nat)
    requires At(s, p, call, Staging(b, phases)) && Fits(s.procs[p]) && Authentic(s.chunks)
    requires i < |phases| && phases[i] == ToVerify(CHUNK_TRIES)
    requires ChunkAddr(b.era, b.version, ChunkSha(call.content.chunks[i])) in s.chunks
    ensures var t := Next(s, Move(p, Pick(i)));
      At(t, p, call, Staging(b, phases[i := Confirmed])) && t.chunks == s.chunks && Still(s, t)
  {
    hide Look, Adjudicate, Staged, Retry, Bound;
    LookVerifies(s, p, s.procs[p], i);
  }

  lemma LookVerifies(s: State, p: nat, proc: Proc, i: nat)
    requires Fits(proc) && proc.pc.Staging? && i < |proc.pc.phases| && proc.pc.phases[i].ToVerify?
    ensures Look(s, p, proc, Pick(i)) == Verified(s, proc, i)
  {
    hide Verified;
  }

  lemma {:induction false} StageAll(s: State, p: nat, call: Call, b: Bind, phases: seq<Phase>, i: nat)
      returns (picks: seq<nat>)
    requires At(s, p, call, Staging(b, phases)) && Fits(s.procs[p]) && Authentic(s.chunks) && i <= |phases|
    requires forall j :: 0 <= j < |phases| ==> phases[j] == if j < i then Confirmed else ToPut(CHUNK_TRIES)
    ensures var t := Alone(s, p, picks);
      At(t, p, call, Staging(b, seq(|phases|, _ => Confirmed))) && Still(s, t)
    decreases |phases| - i
  {
    hide Next, Authentic;
    if i == |phases| {
      picks := [];
      assert phases == seq(|phases|, _ => Confirmed);
    } else {
      picks := StageOne(s, p, call, b, phases, i);
      var t := Alone(s, p, picks);
      var rest := StageAll(t, p, call, b, phases[i := Confirmed], i + 1);
      AloneAdds(s, p, picks, rest);
      picks := picks + rest;
    }
  }

  /** A streamed writer needs the fence down and a chunk count that is legal. */
  predicate Sendable(s: State, call: Call) {
    Writes(call) && (call.content.Chunked? && call.content.streamed ==>
      !s.fence && MIN_CHUNKS <= |call.content.chunks| <= MAX_CHUNKS)
  }

  lemma Sealed(s: State, p: nat, call: Call, b: Bind, k: nat)
    requires At(s, p, call, Staging(b, seq(k, _ => Confirmed))) && Writes(call)
    requires call.content.Chunked? && k == |call.content.chunks|
    ensures var t := Next(s, Move(p, Pick(k)));
      At(t, p, call, Staged(call, b)) && Still(s, t)
  {
    hide StartStaging, Adjudicate, Verified, Retry, Staged;
  }

  lemma PassesGate(s: State, p: nat, call: Call, b: Bind)
    requires At(s, p, call, CommitGate(b)) && call.CompareExchange? && Era(s.store) == b.era
    ensures var t := Next(s, Move(p, Pick(0))); At(t, p, call, Put(b)) && Still(s, t)
  {
    hide StartStaging, Adjudicate, Verified, Staged, Retry;
  }

  /** All chunks are staged. */
  lemma StagesAll(s: State, p: nat, call: Call, b: Bind) returns (picks: seq<nat>)
    requires Writes(call) && call.content.Chunked? && At(s, p, call, StartStaging(call, b)) && Authentic(s.chunks)
    ensures var t := Alone(s, p, picks); At(t, p, call, Staged(call, b)) && Still(s, t)
  {
    var k := |call.content.chunks|;
    var phases := seq(k, i => ToPut(CHUNK_TRIES));
    assert StartStaging(call, b) == Staging(b, phases);
    hide Next, StartStaging, Authentic, Staged;
    picks := StageAll(s, p, call, b, phases, 0);
    var a := Alone(s, p, picks);
    Sealed(a, p, call, b, k);
    AloneOne(a, p, k);
    AloneAdds(s, p, picks, [k]);
    picks := picks + [k];
  }

  /** From staging to the control PUT. */
  lemma StagedReachesPut(s: State, p: nat, call: Call, b: Bind) returns (picks: seq<nat>)
    requires Sendable(s, call) && call.content.Chunked? && At(s, p, call, StartStaging(call, b)) && Authentic(s.chunks)
    requires call.CompareExchange? ==> Era(s.store) == b.era
    ensures var t := Alone(s, p, picks); At(t, p, call, Put(b)) && Still(s, t)
  {
    hide Next, StartStaging, Authentic;
    picks := StagesAll(s, p, call, b);
    if call.CompareExchange? {
      var t := Alone(s, p, picks);
      PassesGate(t, p, call, b);
      AloneOne(t, p, 0);
      AloneAdds(s, p, picks, [0]);
      picks := picks + [0];
    }
  }

  lemma BoundReachesPut(s: State, p: nat, call: Call, b: Bind) returns (picks: seq<nat>)
    requires Sendable(s, call) && At(s, p, call, Bound(call, b)) && Authentic(s.chunks)
    requires call.CompareExchange? ==> Era(s.store) == b.era
    ensures var t := Alone(s, p, picks); At(t, p, call, Put(b)) && Still(s, t)
  {
    hide Next, StartStaging, Authentic;
    if call.content.Whole? {
      picks := [];
    } else if call.content.streamed {
      FenceOpens(s, p, call, b);
      AloneOne(s, p, 0);
      var rest := StagedReachesPut(Alone(s, p, [0]), p, call, b);
      AloneAdds(s, p, [0], rest);
      picks := [0] + rest;
    } else {
      picks := StagedReachesPut(s, p, call, b);
    }
  }

  lemma PutAcks(s: State, p: nat, call: Call, b: Bind)
    requires At(s, p, call, Put(b)) && Writes(call) && s.store.cell == Over(call) && Era(s.store) == b.era
    ensures var t := Alone(s, p, [0, 0]);
      && At(t, p, call, Finished(Acked(Target(p, call, b)))) && t.store.cell == Some(Target(p, call, b))
      && Era(t.store) == Era(s.store) && t.store.tomb == s.store.tomb && t.fence == s.fence && t.retired == s.retired
  {
    hide Target, StartStaging, Adjudicate, Verified, Staged, Retry, Bound;
    var a := Next(s, Move(p, Pick(0)));
    assert At(a, p, call, Recheck(b)) && a.store.cell == Some(Target(p, call, b)) && Era(a.store) == Era(s.store);
    assert a.store.tomb == s.store.tomb && a.fence == s.fence && a.retired == s.retired;
    AloneOne(s, p, 0);
    AloneOne(a, p, 0);
    AloneAdds(s, p, [0], [0]);
    assert [0] + [0] == [0, 0];
  }

  /** Bound to a generation that is free, an undisturbed write is published and acknowledged. */
  lemma BoundAcks(s: State, p: nat, call: Call, b: Bind) returns (picks: seq<nat>)
    requires Sendable(s, call) && At(s, p, call, Bound(call, b)) && Authentic(s.chunks)
    requires s.store.cell == Over(call) && Era(s.store) == b.era
    ensures var t := Alone(s, p, picks);
      At(t, p, call, Finished(Acked(Target(p, call, b)))) && t.store.cell == Some(Target(p, call, b))
  {
    hide Next, Authentic, Target, Bound;
    picks := BoundReachesPut(s, p, call, b);
    PutAcks(Alone(s, p, picks), p, call, b);
    AloneAdds(s, p, picks, [0, 0]);
    picks := picks + [0, 0];
  }

  lemma CreateBinds(s: State, p: nat, call: Call)
    requires p !in s.procs && call.Create?
    ensures var t := Alone(Next(s, Begin(p, call)), p, [0]);
      At(t, p, call, Bound(call, Bind(Era(s.store), 0, ATTEMPTS))) && Still(s, t) && t.chunks == s.chunks
  {
    hide StartStaging, Adjudicate, Verified, Staged, Retry, Bound;
    var a := Next(s, Begin(p, call));
    assert At(a, p, call, Stamp(ATTEMPTS)) && Still(s, a) && a.chunks == s.chunks;
    AloneOne(a, p, 0);
  }

  lemma ExchangeBinds(s: State, p: nat, call: Call)
    requires p !in s.procs && call.CompareExchange? && s.store.cell == Some(call.expected)
    requires Era(s.store) == call.expected.era && call.expected.rank < U64_MAX
    ensures var t := Alone(Next(s, Begin(p, call)), p, [0, 0]);
      At(t, p, call, Bound(call, Bind(call.expected.era, call.expected.rank + 1, ATTEMPTS)))
      && Still(s, t) && t.chunks == s.chunks
  {
    hide Next, Bound;
    var a := Next(s, Begin(p, call));
    ExchangeBegins(s, p, call);
    AloneOne(a, p, 0);
    ExchangeReads(a, p, call);
    var b := Next(a, Move(p, Pick(0)));
    AloneOne(b, p, 0);
    ExchangeGate(b, p, call);
    AloneAdds(a, p, [0], [0]);
    assert [0] + [0] == [0, 0];
  }

  lemma ExchangeBegins(s: State, p: nat, call: Call)
    requires p !in s.procs && call.CompareExchange?
    ensures var t := Next(s, Begin(p, call)); At(t, p, call, CasRead) && Still(s, t) && t.chunks == s.chunks
  {
  }

  lemma ExchangeReads(s: State, p: nat, call: Call)
    requires At(s, p, call, CasRead) && call.CompareExchange? && s.store.cell == Some(call.expected)
    ensures var t := Next(s, Move(p, Pick(0))); At(t, p, call, CasGate) && Still(s, t) && t.chunks == s.chunks
  {
    hide StartStaging, Adjudicate, Verified, Staged, Retry, Bound;
  }

  lemma ExchangeGate(s: State, p: nat, call: Call)
    requires At(s, p, call, CasGate) && call.CompareExchange?
    requires Era(s.store) == call.expected.era && call.expected.rank < U64_MAX
    ensures var t := Next(s, Move(p, Pick(0)));
      At(t, p, call, Bound(call, Bind(call.expected.era, call.expected.rank + 1, ATTEMPTS)))
      && Still(s, t) && t.chunks == s.chunks
  {
    hide StartStaging, Adjudicate, Verified, Staged, Retry;
  }

  /** A create at an empty key publishes version 0 of the current incarnation, inline or chunked. */
  lemma UndisturbedCreate(s: State, p: nat, content: Content) returns (picks: seq<nat>)
    requires p !in s.procs && Sendable(s, Create(content)) && Authentic(s.chunks) && s.store.cell.None?
    ensures var t := Alone(Next(s, Begin(p, Create(content))), p, picks);
      var c := Target(p, Create(content), Bind(Era(s.store), 0, ATTEMPTS));
      At(t, p, Create(content), Finished(Acked(c))) && t.store.cell == Some(c)
  {
    var call := Create(content);
    CreateBinds(s, p, call);
    hide Next, Authentic, Target, Bound;
    var a := Next(s, Begin(p, call));
    var rest := BoundAcks(Alone(a, p, [0]), p, call, Bind(Era(s.store), 0, ATTEMPTS));
    AloneAdds(a, p, [0], rest);
    picks := [0] + rest;
  }

  /** A compare-exchange shown the standing control of the open incarnation publishes its next version. */
  lemma UndisturbedExchange(s: State, p: nat, expected: Control, content: Content) returns (picks: seq<nat>)
    requires p !in s.procs && Sendable(s, CompareExchange(expected, content)) && Authentic(s.chunks)
    requires s.store.cell == Some(expected) && Era(s.store) == expected.era && expected.rank < U64_MAX
    ensures var call := CompareExchange(expected, content);
      var t := Alone(Next(s, Begin(p, call)), p, picks);
      var c := Target(p, call, Bind(expected.era, expected.rank + 1, ATTEMPTS));
      At(t, p, call, Finished(Acked(c))) && t.store.cell == Some(c)
  {
    var call := CompareExchange(expected, content);
    ExchangeBinds(s, p, call);
    hide Next, Authentic, Target, Bound;
    var a := Next(s, Begin(p, call));
    var rest := BoundAcks(Alone(a, p, [0, 0]), p, call, Bind(expected.era, expected.rank + 1, ATTEMPTS));
    AloneAdds(a, p, [0, 0], rest);
    picks := [0, 0] + rest;
  }

  // ---- Every answer ------------------------------------------------------------------------

  /** Why a streamed write does not reach its control PUT. */
  function Barrier(s: State, content: Content): Option<Outcome> {
    if content.Whole? || !content.streamed then None
    else if s.fence then Some(Fenced)
    else if !(MIN_CHUNKS <= |content.chunks| <= MAX_CHUNKS) then Some(ChunkCountInvalid)
    else None
  }

  /** What an undisturbed call answers, by what it finds. */
  function AnswerAlone(s: State, p: nat, call: Call): Outcome
    requires !call.Sweep?
  {
    match call
    case Create(content) =>
      if Barrier(s, content).Some? then Barrier(s, content).value
      else if s.store.cell.Some? then AlreadyExists
      else Acked(Target(p, call, Bind(Era(s.store), 0, ATTEMPTS)))
    case CompareExchange(expected, content) =>
      if s.store.cell != Some(expected) then PreconditionFailed
      else if Era(s.store) != expected.era then StaleIncarnation
      else if expected.rank >= U64_MAX then VersionExhausted
      else if Barrier(s, content).Some? then Barrier(s, content).value
      else Acked(Target(p, call, Bind(expected.era, expected.rank + 1, ATTEMPTS)))
    case Destroy => if s.store.cell.Some? && Era(s.store) >= U64_MAX then VersionExhausted else Destroyed
  }

  /** The tombstone after a destroy: an earlier one stays, otherwise it names the control destroyed. */
  function Witness(s: State): Tombstone
    requires s.store.cell.Some?
  {
    if s.store.tomb.Some? then s.store.tomb.value else Tombstone(s.store.cell.value.era, s.store.cell.value.rank)
  }

  /** And what it leaves of the key. */
  ghost predicate Leaves(s: State, t: State, o: Outcome) {
    && t.fence == s.fence && t.retired == s.retired
    && match o
       case Acked(c) => t.store.cell == Some(c) && Era(t.store) == Era(s.store) && t.store.tomb == s.store.tomb
       case Destroyed =>
         if s.store.cell.None? then t.store == s.store
         else t.store.cell.None? && t.store.tomb == Some(Witness(s)) && Era(t.store) == Era(s.store) + 1
       case VersionExhausted =>
         t.store == s.store || (s.store.cell.Some? && t.store == s.store.(tomb := Some(Witness(s))))
       case _ => t.store == s.store
  }

  lemma FenceStops(s: State, p: nat, call: Call, b: Bind)
    requires At(s, p, call, FenceRead(b)) && Writes(call) && call.content.Chunked? && s.fence
    ensures var t := Next(s, Move(p, Pick(0))); At(t, p, call, Finished(Fenced)) && Still(s, t)
  {
    hide StartStaging, Adjudicate, Verified, Staged, Retry;
  }

  lemma FenceOpens(s: State, p: nat, call: Call, b: Bind)
    requires At(s, p, call, FenceRead(b)) && Writes(call) && call.content.Chunked? && !s.fence
    ensures var t := Next(s, Move(p, Pick(0)));
      At(t, p, call, StartStaging(call, b)) && Still(s, t) && t.chunks == s.chunks
  {
    hide StartStaging, Adjudicate, Verified, Staged, Retry;
  }

  lemma BarrierStops(s: State, p: nat, call: Call, b: Bind) returns (picks: seq<nat>)
    requires Writes(call) && At(s, p, call, Bound(call, b)) && Authentic(s.chunks) && Barrier(s, call.content).Some?
    ensures var t := Alone(s, p, picks); At(t, p, call, Finished(Barrier(s, call.content).value)) && Still(s, t)
  {
    hide Next, StartStaging, Authentic;
    AloneOne(s, p, 0);
    picks := [0];
    if s.fence {
      FenceStops(s, p, call, b);
    } else {
      FenceOpens(s, p, call, b);
      var rest := StagesAll(Alone(s, p, [0]), p, call, b);
      AloneAdds(s, p, [0], rest);
      picks := [0] + rest;
    }
  }

  lemma PutRefused(s: State, p: nat, call: Call, b: Bind)
    requires At(s, p, call, Put(b)) && call.Create? && s.store.cell.Some?
    ensures var t := Next(s, Move(p, Pick(0))); At(t, p, call, Finished(AlreadyExists)) && Still(s, t)
  {
    hide Target, StartStaging, Adjudicate, Verified, Staged, Retry, Bound;
  }

  lemma BoundAnswers(s: State, p: nat, call: Call, b: Bind) returns (picks: seq<nat>)
    requires Writes(call) && At(s, p, call, Bound(call, b)) && Authentic(s.chunks) && Era(s.store) == b.era
    requires call.CompareExchange? ==> s.store.cell == Over(call)
    ensures var t := Alone(s, p, picks);
      var o := if Barrier(s, call.content).Some? then Barrier(s, call.content).value
               else if s.store.cell != Over(call) then AlreadyExists else Acked(Target(p, call, b));
      At(t, p, call, Finished(o)) && Leaves(s, t, o)
  {
    hide Next, Authentic, Target, Bound, Apply;
    if Barrier(s, call.content).Some? {
      picks := BarrierStops(s, p, call, b);
    } else {
      picks := BoundReachesPut(s, p, call, b);
      var a := Alone(s, p, picks);
      if s.store.cell == Over(call) {
        PutAcks(a, p, call, b);
        AloneAdds(s, p, picks, [0, 0]);
        picks := picks + [0, 0];
      } else {
        PutRefused(a, p, call, b);
        AloneOne(a, p, 0);
        AloneAdds(s, p, picks, [0]);
        picks := picks + [0];
      }
    }
  }

  lemma ExchangeRefused(s: State, p: nat, call: Call)
    requires At(s, p, call, CasRead) && call.CompareExchange? && s.store.cell != Some(call.expected)
    ensures var t := Next(s, Move(p, Pick(0))); At(t, p, call, Finished(PreconditionFailed)) && Still(s, t)
  {
    hide StartStaging, Adjudicate, Verified, Staged, Retry, Bound;
  }

  lemma ExchangeBarred(s: State, p: nat, call: Call)
    requires At(s, p, call, CasGate) && call.CompareExchange?
    requires Era(s.store) != call.expected.era || call.expected.rank >= U64_MAX
    ensures var t := Next(s, Move(p, Pick(0)));
      var o := if Era(s.store) != call.expected.era then StaleIncarnation else VersionExhausted;
      At(t, p, call, Finished(o)) && Still(s, t)
  {
    hide StartStaging, Adjudicate, Verified, Staged, Retry, Bound;
  }

  lemma ExchangeAnswers(s: State, p: nat, call: Call) returns (picks: seq<nat>)
    requires p !in s.procs && call.CompareExchange? && Authentic(s.chunks)
    ensures var t := Alone(Next(s, Begin(p, call)), p, picks); var o := AnswerAlone(s, p, call);
      At(t, p, call, Finished(o)) && Leaves(s, t, o)
  {
    hide Next, Authentic, Target, Bound;
    var a := Next(s, Begin(p, call));
    ExchangeBegins(s, p, call);
    AloneOne(a, p, 0);
    if s.store.cell != Some(call.expected) {
      ExchangeRefused(a, p, call);
      picks := [0];
    } else if Era(s.store) != call.expected.era || call.expected.rank >= U64_MAX {
      ExchangeReads(a, p, call);
      var b := Alone(a, p, [0]);
      ExchangeBarred(b, p, call);
      AloneOne(b, p, 0);
      AloneAdds(a, p, [0], [0]);
      picks := [0] + [0];
    } else {
      ExchangeBinds(s, p, call);
      var b := Alone(a, p, [0, 0]);
      var rest := BoundAnswers(b, p, call, Bind(call.expected.era, call.expected.rank + 1, ATTEMPTS));
      AloneAdds(a, p, [0, 0], rest);
      picks := [0, 0] + rest;
    }
  }

  lemma CreateAnswers(s: State, p: nat, call: Call) returns (picks: seq<nat>)
    requires p !in s.procs && call.Create? && Authentic(s.chunks)
    ensures var t := Alone(Next(s, Begin(p, call)), p, picks); var o := AnswerAlone(s, p, call);
      At(t, p, call, Finished(o)) && Leaves(s, t, o)
  {
    hide Next, Authentic, Target, Bound;
    CreateBinds(s, p, call);
    var a := Next(s, Begin(p, call));
    var rest := BoundAnswers(Alone(a, p, [0]), p, call, Bind(Era(s.store), 0, ATTEMPTS));
    AloneAdds(a, p, [0], rest);
    picks := [0] + rest;
  }

  // ---- Destroy -------------------------------------------------------------------------------

  lemma DestroyBegins(s: State, p: nat)
    requires p !in s.procs
    ensures var t := Next(s, Begin(p, Destroy)); At(t, p, Destroy, DestroyLoad) && Still(s, t)
  {
  }

  lemma DestroyLoads(s: State, p: nat)
    requires At(s, p, Destroy, DestroyLoad)
    ensures var t := Next(s, Move(p, Pick(0)));
      && At(t, p, Destroy, if s.store.cell.None? then Finished(Destroyed) else TombPut(s.store.cell.value))
      && Still(s, t)
  {
    hide Adjudicate, Verified, Staged, Retry, Bound;
  }

  lemma DestroyWitnesses(s: State, p: nat, c: Control)
    requires At(s, p, Destroy, TombPut(c)) && s.store.cell == Some(c)
    ensures var t := Next(s, Move(p, Pick(0)));
      && At(t, p, Destroy, BumpRead(c, ATTEMPTS)) && t.fence == s.fence && t.retired == s.retired
      && t.store == s.store.(tomb := Some(Witness(s)))
  {
    hide Retry, Look;
  }

  lemma DestroyReadsCounter(s: State, p: nat, c: Control, left: nat)
    requires At(s, p, Destroy, BumpRead(c, left))
    ensures var t := Next(s, Move(p, Pick(0)));
      && At(t, p, Destroy, if Era(s.store) >= U64_MAX then Finished(VersionExhausted)
        else BumpPut(c, left, s.store.counter))
      && Still(s, t)
  {
    hide Adjudicate, Verified, Staged, Retry, Bound;
  }

  lemma DestroyBumps(s: State, p: nat, c: Control, left: nat)
    requires At(s, p, Destroy, BumpPut(c, left, s.store.counter))
    ensures var t := Next(s, Move(p, Pick(0)));
      && At(t, p, Destroy, TailDelete(c)) && t.fence == s.fence && t.retired == s.retired
      && t.store.cell == s.store.cell && t.store.tomb == s.store.tomb && Era(t.store) == Era(s.store) + 1
  {
    hide Retry, Look;
  }

  lemma DestroyDeletes(s: State, p: nat, c: Control)
    requires At(s, p, Destroy, TailDelete(c)) && s.store.cell == Some(c)
    ensures var t := Next(s, Move(p, Pick(0)));
      && At(t, p, Destroy, Finished(Destroyed)) && t.fence == s.fence && t.retired == s.retired
      && t.store.cell.None? && t.store.tomb == s.store.tomb && Era(t.store) == Era(s.store)
  {
    hide Retry, Look;
  }

  lemma AloneSteps(s: State, p: nat, picks: seq<nat>)
    ensures Alone(s, p, picks + [0]) == Next(Alone(s, p, picks), Move(p, Pick(0)))
  {
    hide Next;
    AloneAdds(s, p, picks, [0]);
    AloneOne(Alone(s, p, picks), p, 0);
  }

  /** A destroy of any standing control, inline or chunked, leaves an empty key, a tombstone,
    and the next incarnation. */
  lemma UndisturbedDestroy(s: State, p: nat, c: Control)
    requires p !in s.procs && s.store.cell == Some(c) && Era(s.store) < U64_MAX
    ensures var t := Alone(Next(s, Begin(p, Destroy)), p, [0, 0, 0, 0, 0]);
      && At(t, p, Destroy, Finished(Destroyed)) && Leaves(s, t, Destroyed)
      && t.store.cell.None? && t.store.tomb == Some(Witness(s)) && Era(t.store) == Era(s.store) + 1
  {
    hide Next;
    var a := Next(s, Begin(p, Destroy));
    DestroyBegins(s, p);
    AloneOne(a, p, 0);
    DestroyLoads(a, p);
    AloneSteps(a, p, [0]);
    DestroyWitnesses(Alone(a, p, [0]), p, c);
    AloneSteps(a, p, [0, 0]);
    DestroyReadsCounter(Alone(a, p, [0, 0]), p, c, ATTEMPTS);
    AloneSteps(a, p, [0, 0, 0]);
    DestroyBumps(Alone(a, p, [0, 0, 0]), p, c, ATTEMPTS);
    AloneSteps(a, p, [0, 0, 0, 0]);
    DestroyDeletes(Alone(a, p, [0, 0, 0, 0]), p, c);
  }

  lemma DestroyAnswers(s: State, p: nat) returns (picks: seq<nat>)
    requires p !in s.procs
    ensures var t := Alone(Next(s, Begin(p, Destroy)), p, picks); var o := AnswerAlone(s, p, Destroy);
      At(t, p, Destroy, Finished(o)) && Leaves(s, t, o)
  {
    hide Next;
    var a := Next(s, Begin(p, Destroy));
    DestroyBegins(s, p);
    AloneOne(a, p, 0);
    DestroyLoads(a, p);
    if s.store.cell.None? {
      picks := [0];
    } else if Era(s.store) < U64_MAX {
      UndisturbedDestroy(s, p, s.store.cell.value);
      picks := [0, 0, 0, 0, 0];
    } else {
      var c := s.store.cell.value;
      AloneSteps(a, p, [0]);
      DestroyWitnesses(Alone(a, p, [0]), p, c);
      AloneSteps(a, p, [0, 0]);
      DestroyReadsCounter(Alone(a, p, [0, 0]), p, c, ATTEMPTS);
      picks := [0, 0] + [0];
    }
  }

  /** An undisturbed call answers as the key it finds determines, and leaves the key as its answer says. */
  lemma UndisturbedAnswer(s: State, p: nat, call: Call) returns (picks: seq<nat>)
    requires p !in s.procs && !call.Sweep? && Authentic(s.chunks)
    ensures var t := Alone(Next(s, Begin(p, call)), p, picks); var o := AnswerAlone(s, p, call);
      At(t, p, call, Finished(o)) && Leaves(s, t, o)
  {
    hide Next, Authentic, AnswerAlone, Leaves;
    match call
    case Create(_) => picks := CreateAnswers(s, p, call);
    case CompareExchange(_, _) => picks := ExchangeAnswers(s, p, call);
    case Destroy => picks := DestroyAnswers(s, p);
  }

  // ---- A lost reply --------------------------------------------------------------------------

  const LOST: Turn := Turn(LoseReply, 0, {}, ANYWHERE)

  lemma LosesReply(s: State, p: nat, call: Call, b: Bind)
    requires At(s, p, call, Put(b)) && Writes(call) && call.content.Chunked?
    requires s.store.cell == Over(call) && Era(s.store) == b.era
    ensures var t := Next(s, Move(p, LOST));
      && At(t, p, call, OracleFloor(b)) && t.store.cell == Some(Target(p, call, b)) && Era(t.store) == b.era
      && t.retired == s.retired
  {
    hide Target, StartStaging, Adjudicate, Verified, Staged, Retry, Bound, Look;
  }

  lemma OracleLooks(s: State, p: nat, call: Call, b: Bind)
    requires At(s, p, call, OracleFloor(b)) && Writes(call) && call.content.Chunked? && !s.retired
    ensures var t := Next(s, Move(p, Pick(0)));
      At(t, p, call, OracleRead(b)) && Still(s, t)
  {
    hide Target, StartStaging, Adjudicate, Verified, Staged, Retry, Bound;
  }

  lemma OracleFinds(s: State, p: nat, call: Call, b: Bind)
    requires At(s, p, call, OracleRead(b)) && Writes(call) && call.content.Chunked?
    requires s.store.cell == Some(Target(p, call, b))
    ensures var t := Next(s, Move(p, Pick(0))); At(t, p, call, Recheck(b)) && Still(s, t)
  {
    hide EntriesOf, StartStaging, Verified, Staged, Retry, Bound;
  }

  lemma OracleAcks(s: State, p: nat, call: Call, b: Bind)
    requires At(s, p, call, Recheck(b)) && Writes(call) && Era(s.store) == b.era
    ensures var t := Next(s, Move(p, Pick(0))); At(t, p, call, Finished(Acked(Target(p, call, b)))) && Still(s, t)
  {
    hide Target, StartStaging, Adjudicate, Verified, Staged, Retry, Bound;
  }

  /** A manifest PUT that landed with its reply lost is recovered: the oracle finds it and the write is acknowledged. */
  lemma LostReplyRecovered(s: State, p: nat, call: Call, b: Bind)
    requires At(s, p, call, Put(b)) && Writes(call) && call.content.Chunked? && !s.retired
    requires s.store.cell == Over(call) && Era(s.store) == b.era
    ensures var t := Alone(Next(s, Move(p, LOST)), p, [0, 0, 0]);
      At(t, p, call, Finished(Acked(Target(p, call, b)))) && t.store.cell == Some(Target(p, call, b))
  {
    hide Next, Target;
    var a := Next(s, Move(p, LOST));
    LosesReply(s, p, call, b);
    AloneOne(a, p, 0);
    OracleLooks(a, p, call, b);
    AloneSteps(a, p, [0]);
    OracleFinds(Alone(a, p, [0]), p, call, b);
    AloneSteps(a, p, [0, 0]);
    OracleAcks(Alone(a, p, [0, 0]), p, call, b);
  }

  // ---- A sweep -----------------------------------------------------------------------------------

  function Driven(s: State, p: nat, turns: seq<Turn>): State
    decreases |turns|
  {
    if turns == [] then s else Next(Driven(s, p, turns[..|turns| - 1]), Move(p, turns[|turns| - 1]))
  }

  lemma DrivenStep(s: State, p: nat, turns: seq<Turn>, turn: Turn)
    ensures Driven(s, p, turns + [turn]) == Next(Driven(s, p, turns), Move(p, turn))
  {
    hide Next;
    assert (turns + [turn])[..|turns|] == turns;
  }

  /** What of a page nothing that stands refers to. */
  ghost function Unneeded(s: State, page: set<ChunkAddr>): set<ChunkAddr> {
    if s.retired || s.store.cell.None? then page else page - References(s.store.cell.value)
  }

  lemma SweepStarts(s: State, p: nat, page: set<ChunkAddr>) returns (turns: seq<Turn>)
    requires p !in s.procs && s.fence && page != {}
    ensures var t := Driven(Next(s, Begin(p, Sweep)), p, turns);
      At(t, p, Sweep, SweepDelete(Unneeded(s, page))) && t.chunks == s.chunks && t.store == s.store
  {
    hide References, Look, Next;
    var a := Next(s, Begin(p, Sweep));
    var list := Turn(Deliver, 0, page, ANYWHERE);
    SweepBegins(s, p);
    assert Driven(a, p, []) == a;
    DrivenStep(a, p, [], list);
    SweepPassesFence(a, p, list);
    DrivenStep(a, p, [list], list);
    var b := Driven(a, p, [list]);
    assert [] + [list] == [list];
    SweepLists(b, p, list);
    DrivenStep(a, p, [list] + [list], list);
    var c := Driven(a, p, [list] + [list]);
    SweepReadsFloor(c, p, list, page);
    turns := [list] + [list] + [list];
    if !s.retired {
      DrivenStep(a, p, turns, list);
      SweepReadsControl(Driven(a, p, turns), p, list, page);
      turns := turns + [list];
    }
  }

  lemma SweepBegins(s: State, p: nat)
    requires p !in s.procs
    ensures var t := Next(s, Begin(p, Sweep));
      At(t, p, Sweep, SweepFence) && t.chunks == s.chunks && t.store == s.store && Still(s, t)
  {
  }

  lemma SweepPassesFence(s: State, p: nat, turn: Turn)
    requires At(s, p, Sweep, SweepFence) && s.fence && turn.net.Deliver?
    ensures var t := Next(s, Move(p, turn)); At(t, p, Sweep, SweepList) && t.chunks == s.chunks && Still(s, t)
  {
    hide References, Adjudicate, Verified, Staged, Retry, Bound;
  }

  lemma SweepLists(s: State, p: nat, turn: Turn)
    requires At(s, p, Sweep, SweepList) && turn.net.Deliver? && turn.page != {}
    ensures var t := Next(s, Move(p, turn));
      At(t, p, Sweep, SweepFloor(turn.page)) && t.chunks == s.chunks && Still(s, t)
  {
    hide References, Adjudicate, Verified, Staged, Retry, Bound;
  }

  lemma SweepReadsFloor(s: State, p: nat, turn: Turn, page: set<ChunkAddr>)
    requires At(s, p, Sweep, SweepFloor(page)) && turn.net.Deliver?
    ensures var t := Next(s, Move(p, turn));
      && At(t, p, Sweep, if s.retired then SweepDelete(page) else SweepControl(page))
      && t.chunks == s.chunks && Still(s, t)
  {
    hide References, Adjudicate, Verified, Staged, Retry, Bound;
  }

  lemma SweepReadsControl(s: State, p: nat, turn: Turn, page: set<ChunkAddr>)
    requires At(s, p, Sweep, SweepControl(page)) && turn.net.Deliver? && !s.retired
    ensures var t := Next(s, Move(p, turn));
      At(t, p, Sweep, SweepDelete(Unneeded(s, page))) && t.chunks == s.chunks && Still(s, t)
  {
    hide References, Adjudicate, Verified, Staged, Retry, Bound;
  }

  lemma SweepDrops(s: State, p: nat, todo: set<ChunkAddr>, turn: Turn)
    requires At(s, p, Sweep, SweepDelete(todo)) && turn.net.Deliver? && turn.addr in todo
    ensures var t := Next(s, Move(p, turn));
      && At(t, p, Sweep, SweepDelete(todo - {turn.addr})) && t.chunks == s.chunks - {turn.addr} && t.store == s.store
  {
    hide Look, Retry;
  }

  lemma SweepEnds(s: State, p: nat)
    requires At(s, p, Sweep, SweepDelete({}))
    ensures var a := Next(s, Move(p, Pick(0))); var t := Next(a, Move(p, Pick(0)));
      At(t, p, Sweep, Finished(Swept)) && t.chunks == s.chunks && t.store == s.store
  {
    hide References, Adjudicate, Verified, Staged, Retry, Bound;
    assert Next(s, Move(p, Pick(0))).procs[p] == Proc(Sweep, SweepList);
  }

  lemma {:induction false} SweepDropsAll(s: State, p: nat, todo: set<ChunkAddr>, before: seq<Turn>)
      returns (turns: seq<Turn>)
    requires At(Driven(s, p, before), p, Sweep, SweepDelete(todo))
    ensures var a, t := Driven(s, p, before), Driven(s, p, turns);
      At(t, p, Sweep, SweepDelete({})) && t.chunks == a.chunks - todo && t.store == a.store
    decreases |todo|
  {
    hide Next;
    if todo == {} {
      turns := before;
      assert Driven(s, p, before).chunks - {} == Driven(s, p, before).chunks;
    } else {
      var addr :| addr in todo;
      var turn := Turn(Deliver, 0, {}, addr);
      DrivenStep(s, p, before, turn);
      SweepDrops(Driven(s, p, before), p, todo, turn);
      turns := SweepDropsAll(s, p, todo - {addr}, before + [turn]);
      var chunks := Driven(s, p, before).chunks;
      assert chunks - {addr} - (todo - {addr}) == chunks - todo;
    }
  }

  /** A sweep of one page behind the fence removes exactly the chunks that nothing standing refers to. */
  lemma UndisturbedSweep(s: State, p: nat, page: set<ChunkAddr>) returns (turns: seq<Turn>)
    requires p !in s.procs && s.fence && page != {}
    ensures var t := Driven(Next(s, Begin(p, Sweep)), p, turns);
      && At(t, p, Sweep, Finished(Swept)) && t.store == s.store
      && t.chunks == s.chunks - Unneeded(s, page)
  {
    hide Next, Unneeded;
    var a := Next(s, Begin(p, Sweep));
    turns := SweepStarts(s, p, page);
    turns := SweepDropsAll(a, p, Unneeded(s, page), turns);
    SweepEnds(Driven(a, p, turns), p);
    DrivenStep(a, p, turns, Pick(0));
    DrivenStep(a, p, turns + [Pick(0)], Pick(0));
    turns := turns + [Pick(0)] + [Pick(0)];
  }

  // ---- A stale landing ---------------------------------------------------------------------------

  lemma FindsStale(s: State, p: nat, call: Call, b: Bind)
    requires At(s, p, call, Recheck(b)) && Writes(call) && Era(s.store) != b.era
    ensures var t := Next(s, Move(p, Pick(0)));
      At(t, p, call, if call.Create? then Reread(b) else Retire(b)) && Still(s, t)
  {
    hide Target, StartStaging, Adjudicate, Verified, Staged, Retry, Bound;
  }

  lemma RereadsOwn(s: State, p: nat, call: Call, b: Bind)
    requires At(s, p, call, Reread(b)) && call.Create? && s.store.cell == Some(Target(p, call, b))
    ensures var t := Next(s, Move(p, Pick(0))); At(t, p, call, Evict(b)) && Still(s, t)
  {
    hide Target, StartStaging, Adjudicate, Verified, Staged, Retry, Bound;
  }

  lemma Withdraws(s: State, p: nat, call: Call, b: Bind)
    requires At(s, p, call, if call.Create? then Evict(b) else Retire(b)) && Writes(call)
    requires s.store.cell == Some(Target(p, call, b))
    ensures var t := Next(s, Move(p, Pick(0)));
      && At(t, p, call, if call.Create? then Retry(call, b) else Finished(StaleIncarnation))
      && t.store.cell.None? && Era(t.store) == Era(s.store)
  {
    hide Target, Look, Retry;
  }

  /**
   What landed in a closed incarnation is withdrawn before the call goes on: a create tries the fresh
   incarnation or gives up, an exchange answers that its own is stale.
  */
  lemma StaleLandingWithdrawn(s: State, p: nat, call: Call, b: Bind) returns (picks: seq<nat>)
    requires At(s, p, call, Recheck(b)) && Writes(call) && Era(s.store) != b.era
    requires s.store.cell == Some(Target(p, call, b))
    ensures var t := Alone(s, p, picks);
      && t.store.cell.None? && Era(t.store) == Era(s.store)
      && At(t, p, call,
            if call.CompareExchange? || (call.content.Chunked? && call.content.streamed) then Finished(StaleIncarnation)
            else if b.left > 1 then Stamp(b.left - 1) else Finished(Unavailable))
  {
    hide Next, Target;
    FindsStale(s, p, call, b);
    AloneOne(s, p, 0);
    picks := [0];
    if call.Create? {
      RereadsOwn(Alone(s, p, picks), p, call, b);
      AloneSteps(s, p, picks);
      picks := picks + [0];
    }
    Withdraws(Alone(s, p, picks), p, call, b);
    AloneSteps(s, p, picks);
    picks := picks + [0];
  }

  /** A chunk that a sweep took between its put and its verification is put again. */
  lemma StagedAgain(s: State, p: nat, call: Call, b: Bind, phases: seq<Phase>, i: nat)
    requires At(s, p, call, Staging(b, phases)) && Fits(s.procs[p])
    requires i < |phases| && phases[i].ToVerify? && phases[i].left > 1
    requires ChunkAddr(b.era, b.version, ChunkSha(call.content.chunks[i])) !in s.chunks
    ensures var t := Alone(s, p, [i, i]); var addr := ChunkAddr(b.era, b.version, ChunkSha(call.content.chunks[i]));
      && At(t, p, call, Staging(b, phases[i := Confirmed]))
      && t.chunks == s.chunks[addr := call.content.chunks[i]] && t.store == s.store
  {
    var bytes := call.content.chunks[i];
    var again := phases[i := ToPut(phases[i].left - 1)];
    AloneOne(s, p, i);
    FindsMissing(s, p, call, b, phases, i);
    var a := Alone(s, p, [i]);
    PutsChunk(a, p, call, b, again, i);
    AloneOne(a, p, i);
    AloneAdds(s, p, [i], [i]);
    assert [i] + [i] == [i, i] && again[i := Confirmed] == phases[i := Confirmed];
  }

  lemma FindsMissing(s: State, p: nat, call: Call, b: Bind, phases: seq<Phase>, i: nat)
    requires At(s, p, call, Staging(b, phases)) && Fits(s.procs[p])
    requires i < |phases| && phases[i].ToVerify? && phases[i].left > 1
    requires ChunkAddr(b.era, b.version, ChunkSha(call.content.chunks[i])) !in s.chunks
    ensures var t := Next(s, Move(p, Pick(i)));
      At(t, p, call, Staging(b, phases[i := ToPut(phases[i].left - 1)])) && t.chunks == s.chunks && Still(s, t)
  {
    hide Look, Adjudicate, Staged, Retry, Bound;
    LookVerifies(s, p, s.procs[p], i);
  }

  lemma PutsChunk(s: State, p: nat, call: Call, b: Bind, phases: seq<Phase>, i: nat)
    requires At(s, p, call, Staging(b, phases)) && Fits(s.procs[p]) && i < |phases| && phases[i].ToPut?
    requires ChunkAddr(b.era, b.version, ChunkSha(call.content.chunks[i])) !in s.chunks
    ensures var t := Next(s, Move(p, Pick(i)));
      var addr := ChunkAddr(b.era, b.version, ChunkSha(call.content.chunks[i]));
      && At(t, p, call, Staging(b, phases[i := Confirmed]))
      && t.chunks == s.chunks[addr := call.content.chunks[i]] && t.store == s.store
  {
    hide Look;
  }

  // ---- A lost race for the counter -----------------------------------------------------------------

  lemma BumpLosesRace(s: State, p: nat, c: Control, left: nat, from: Option<nat>)
    requires At(s, p, Destroy, BumpPut(c, left, from)) && s.store.counter != from && left > 1
    ensures var t := Next(s, Move(p, Pick(0))); At(t, p, Destroy, BumpRead(c, left - 1)) && Still(s, t)
  {
    hide Retry, Look;
  }

  /** A destroy that loses the race for the counter reads it again and goes on. */
  lemma DestroyRetries(s: State, p: nat, c: Control, left: nat, from: Option<nat>)
    requires At(s, p, Destroy, BumpPut(c, left, from)) && s.store.counter != from && left > 1
    requires s.store.cell == Some(c) && Era(s.store) < U64_MAX
    ensures var t := Alone(s, p, [0, 0, 0, 0]);
      && At(t, p, Destroy, Finished(Destroyed))
      && t.store.cell.None? && t.store.tomb == s.store.tomb && Era(t.store) == Era(s.store) + 1
  {
    hide Next;
    BumpLosesRace(s, p, c, left, from);
    AloneOne(s, p, 0);
    DestroyReadsCounter(Alone(s, p, [0]), p, c, left - 1);
    AloneSteps(s, p, [0]);
    DestroyBumps(Alone(s, p, [0, 0]), p, c, left - 1);
    AloneSteps(s, p, [0, 0]);
    DestroyDeletes(Alone(s, p, [0, 0, 0]), p, c);
    AloneSteps(s, p, [0, 0, 0]);
  }
}
