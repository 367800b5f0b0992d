/** The requests a call makes against one stream's log, each preceded by whatever the others do. */
module LogStore {
  import opened Basics
  import opened Timelines

  /** The fate of a request: a lost one may or may not have taken effect. */
  datatype Fault = Fine | Down | Malformed | LoseRequest | LoseReply

  datatype Got = Found(bytes: Bytes) | Absent | Broken | Unreachable | Inadmissible

  datatype FloorRead = Read(floor: Option<Seq>) | FloorDown | FloorRejected

  datatype Listed = Later(at: Option<Seq>) | ListDown | ListRejected

  datatype Reply = Done | Refused | Missing | Lost

  datatype Created = Landed | AlreadyExists | Unresolved

  /** A consumed request: what this call asked the store to change. */
  datatype Sent = Put(at: Seq, bytes: Bytes) | Evict(at: Seq, bytes: Bytes)

  ghost predicate SentOnly(a: seq<Sent>, b: seq<Sent>, t: Seq, v: Bytes) {
    && a <= b
    && forall k :: |a| <= k < |b| ==> b[k].at == t && b[k].bytes == v
  }

  const ATTEMPTS: nat := 8

  class Log {
    var trace: Trace
    var sent: seq<Sent>
    var clock: nat
    const meddling: (nat, Snapshot) -> seq<Snapshot>
    const faults: nat -> Fault
    const listings: nat -> Option<Seq>

    constructor (start: Snapshot, meddling: (nat, Snapshot) -> seq<Snapshot>, faults: nat -> Fault,
                 listings: nat -> Option<Seq>)
      ensures Valid() && trace == [Moment(false, start)] && sent == []
      ensures this.meddling == meddling && this.faults == faults && this.listings == listings
    {
      trace, sent, clock := [Moment(false, start)], [], 0;
      this.meddling, this.faults, this.listings := meddling, faults, listings;
    }

    ghost predicate Valid() reads this { trace != [] }

    /** Nobody else moves, and no request fails. */
    ghost predicate Undisturbed() {
      && (forall k, s :: meddling(k, s) == [])
      && (forall k :: faults(k).Fine?)
    }

    /** And LIST shows nothing further on. */
    ghost predicate Calm() { Undisturbed() && forall k :: listings(k).None? }

    /** Some request with a number in the range came to nothing for want of the store. */
    ghost predicate WentDown(from: nat, to: nat) {
      exists k :: from <= k < to && (faults(k).Down? || faults(k).LoseRequest? || faults(k).LoseReply?)
    }

    /** Some request in the range was refused as malformed. */
    ghost predicate WasRefused(from: nat, to: nat) { exists k :: from <= k < to && faults(k).Malformed? }

    /** Some request in the range failed. */
    ghost predicate Doubtful(from: nat, to: nat) { exists k :: from <= k < to && !faults(k).Fine? }

    /** Some LIST in the range showed this position. */
    ghost predicate WasListed(from: nat, to: nat, t: Seq) { exists k :: from <= k < to && listings(k) == Some(t) }

    function Now(): Snapshot
      requires trace != []
      reads this
    {
      trace[|trace| - 1].snap
    }

    /** Time passes: the others do what they do, and the next request meets its fate. */
    method Pass() returns (fault: Fault)
      requires Valid()
      modifies this
      ensures Valid() && Quiet(old(trace), trace) && sent == old(sent)
      ensures fault == faults(old(clock)) && clock == old(clock) + 1
      ensures Undisturbed() ==> trace == old(trace) && fault.Fine?
    {
      var others := meddling(clock, Now());
      trace := trace + seq(|others|, i requires 0 <= i < |others| => Moment(false, others[i]));
      fault := faults(clock);
      clock := clock + 1;
    }

    method Get(t: Seq) returns (g: Got)
      requires Valid()
      modifies this
      ensures Valid() && Quiet(old(trace), trace) && sent == old(sent)
      ensures g.Found? ==> Holds(Now(), t, g.bytes) && !g.bytes.Damaged?
      ensures g.Absent? ==> t !in Now().slots
      ensures g.Broken? ==> t in Now().slots && Now().slots[t].bytes.Damaged?
      ensures clock == old(clock) + 1
      ensures g.Unreachable? ==> WentDown(old(clock), clock)
      ensures g.Inadmissible? ==> WasRefused(old(clock), clock)
      ensures Undisturbed() ==> trace == old(trace) && (g.Found? || g.Absent? || g.Broken?)
    {
      var fault := Pass();
      if fault.Malformed? {
        g := Inadmissible;
      } else if !fault.Fine? {
        g := Unreachable;
      } else if t !in Now().slots {
        g := Absent;
      } else {
        g := if Now().slots[t].bytes.Damaged? then Broken else Found(Now().slots[t].bytes);
      }
    }

    method GetFloor() returns (f: FloorRead)
      requires Valid()
      modifies this
      ensures Valid() && Quiet(old(trace), trace) && sent == old(sent)
      ensures f.Read? ==> f.floor == Now().floor
      ensures clock == old(clock) + 1
      ensures f.FloorDown? ==> WentDown(old(clock), clock)
      ensures f.FloorRejected? ==> WasRefused(old(clock), clock)
      ensures Undisturbed() ==> trace == old(trace) && f.Read?
    {
      var fault := Pass();
      f := match fault
        case Fine => Read(Now().floor)
        case Malformed => FloorRejected
        case _ => FloorDown;
    }

    /** The smallest log key that a LIST page after `t` shows, if any; LIST may hide or lag. */
    method NextAfter(t: Seq) returns (l: Listed)
      requires Valid()
      modifies this
      ensures Valid() && Quiet(old(trace), trace) && sent == old(sent)
      ensures l.Later? && l.at.Some? ==> l.at.value > t && WasListed(old(clock), clock, l.at.value)
      ensures clock == old(clock) + 1
      ensures l.ListDown? ==> WentDown(old(clock), clock)
      ensures l.ListRejected? ==> WasRefused(old(clock), clock)
      ensures Undisturbed() ==>
        trace == old(trace) && l == Later(if listings(old(clock)).Some? && listings(old(clock)).value > t
                                                                 then listings(old(clock)) else None)
    {
      var shown := listings(clock);
      var fault := Pass();
      l := match fault
        case Fine => Later(if shown.Some? && shown.value > t then shown else None)
        case Malformed => ListRejected
        case _ => ListDown;
    }

    method ReadEra(t: Seq) returns (e: Option<nat>)
      requires Valid()
      modifies this
      ensures Valid() && Quiet(old(trace), trace) && sent == old(sent)
      ensures e.Some? ==> e.value == Era(Now(), t)
      ensures clock == old(clock) + 1 && (e.None? ==> Doubtful(old(clock), clock))
      ensures Undisturbed() ==> trace == old(trace) && e.Some?
    {
      var fault := Pass();
      e := if fault.Fine? then Some(Era(Now(), t)) else None;
    }

    method GetStored(t: Seq) returns (reached: bool, s: Option<Stored>)
      requires Valid()
      modifies this
      ensures Valid() && Quiet(old(trace), trace) && sent == old(sent)
      ensures reached ==> s == if t in Now().slots then Some(Now().slots[t]) else None
      ensures clock == old(clock) + 1 && (!reached ==> Doubtful(old(clock), clock))
      ensures Undisturbed() ==> trace == old(trace) && reached
    {
      var fault := Pass();
      reached := fault.Fine?;
      s := if t in Now().slots then Some(Now().slots[t]) else None;
    }

    method PutIfAbsent(t: Seq, stored: Stored) returns (r: Reply)
      requires Valid()
      modifies this
      ensures Valid() && old(trace) <= trace && WritesOnly(old(trace), trace, t, stored.bytes)
      ensures sent == old(sent) + [Put(t, stored.bytes)]
      ensures r.Done? ==>
        && |old(trace)| < |trace| && trace[|trace| - 1].own
        && PutStep(trace[|trace| - 2].snap, Now(), t, stored.bytes) && Now().slots[t] == stored
      ensures r.Refused? ==> t in Now().slots
      ensures clock == old(clock) + 1 && (r.Lost? ==> Doubtful(old(clock), clock)) && !r.Missing?
      ensures Undisturbed() ==> if t in old(Now()).slots then r.Refused? && trace == old(trace)
        else r.Done? && Now() == old(Now()).(slots := old(Now()).slots[t := stored])
    {
      sent := sent + [Put(t, stored.bytes)];
      var fault := Pass();
      QuietWrites(old(trace), trace, t, stored.bytes);
      r := if fault.Fine? then (if t in Now().slots then Refused else Done) else Lost;
      if t !in Now().slots && (fault.Fine? || fault.LoseReply?) {
        var landed := Moment(true, Now().(slots := Now().slots[t := stored]));
        ghost var before := trace;
        trace := trace + [landed];
        assert OwnStep(trace, |before|, t, stored.bytes);
        WritesOnlyThen(old(trace), before, trace, t, stored.bytes);
      }
    }

    /** A conditional delete of a stale publication, sent only once the counter was seen to move. */
    method EvictIfMatch(t: Seq, stored: Stored) returns (r: Reply)
      requires Valid() && EraMoved(trace, |trace|, t)
      modifies this
      ensures Valid() && WritesOnly(old(trace), trace, t, stored.bytes)
      ensures sent == old(sent) + [Evict(t, stored.bytes)] && old(trace) <= trace
      ensures r.Refused? ==> t in Now().slots && Now().slots[t] != stored
      ensures r.Done? || r.Missing? ==> t !in Now().slots
      ensures clock == old(clock) + 1 && (r.Lost? ==> Doubtful(old(clock), clock))
      ensures Undisturbed() && t in old(Now()).slots && old(Now()).slots[t] == stored ==>
        r.Done? && Now() == old(Now()).(slots := old(Now()).slots - {t})
    {
      hide Undisturbed, WritesOnly, OwnStep, Quiet, Doubtful, EraMoved;
      sent := sent + [Evict(t, stored.bytes)];
      ghost var start := trace;
      var fault := Pass();
      QuietWrites(start, trace, t, stored.bytes);
      QuietGrows(start, trace);
      OneDoubt(old(clock), fault);
      var matches := t in Now().slots && Now().slots[t] == stored;
      r := if !fault.Fine? then Lost else if matches then Done else if t in Now().slots then Refused else Missing;
      if matches && (fault.Fine? || fault.LoseReply?) {
        ghost var before := trace;
        EraMovedExtends(start, before, |start|, |before|, t);
        var gone := Moment(true, Now().(slots := Now().slots - {t}));
        trace := trace + [gone];
        EvictionIsOwn(before, gone, t, stored);
        WritesOnlyThen(start, before, trace, t, stored.bytes);
      }
    }

    lemma OneDoubt(k: nat, fault: Fault)
      requires fault == faults(k)
      ensures !fault.Fine? ==> Doubtful(k, k + 1)
    {
    }

    /**
     Put-if-absent at the kernel level: stamp the incarnation, put, re-check, and withdraw only our own
     stale publication.  `Landed` means that this call put the bytes where nothing stood, `AlreadyExists`
     that something stood there; anything else is said only when a request failed, or when the
     counter moved and the attempts were used up.
    */
    method Create(t: Seq, v: Bytes) returns (c: Created)
      requires Valid()
      modifies this
      ensures Valid() && old(trace) <= trace && WritesOnly(old(trace), trace, t, v) && SentOnly(old(sent), sent, t, v)
      ensures c.Landed? ==> Planted(trace, |old(trace)|, t, v)
      ensures c.AlreadyExists? ==> Taken(trace, |old(trace)| - 1, t)
      ensures c.Unresolved? ==>
        Doubtful(old(clock), clock) || (EraMoved(trace, |trace|, t) && |sent| >= |old(sent)| + ATTEMPTS)
      ensures old(clock) <= clock
      ensures Undisturbed() ==> if t in old(Now()).slots then c.AlreadyExists? && trace == old(trace)
        else c.Landed? && PutStep(old(Now()), Now(), t, v)
    {
      c := Unresolved;
      var left := ATTEMPTS;
      while left > 0
        invariant Valid() && old(trace) <= trace && WritesOnly(old(trace), trace, t, v)
        invariant SentOnly(old(sent), sent, t, v) && old(clock) <= clock
        invariant left < ATTEMPTS ==> EraMoved(trace, |trace|, t)
        invariant left <= ATTEMPTS && |sent| >= |old(sent)| + (ATTEMPTS - left)
        invariant Undisturbed() ==> left == ATTEMPTS && trace == old(trace)
      {
        hide WritesOnly, EraMoved, Doubtful, Planted, Taken, PutStep, Undisturbed;
        left := left - 1;
        var again := true;
        ghost var before := clock;
        again, c := CreateOnce(t, v, old(trace));
        if !again {
          DoubtGrows(old(clock), before, clock);
          return;
        }
      }
      c := Unresolved;
    }

    lemma DoubtGrows(from: nat, mid: nat, to: nat)
      requires from <= mid <= to
      ensures Doubtful(mid, to) ==> Doubtful(from, to)
    {
    }

    /** A counter read inside a call that began with the timeline `start`. */
    method Stamp(t: Seq, v: Bytes, ghost start: Trace) returns (era: Option<nat>)
      requires Valid() && WritesOnly(start, trace, t, v)
      modifies this
      ensures Valid() && old(trace) <= trace && WritesOnly(start, trace, t, v) && sent == old(sent)
      ensures era.Some? ==> era.value == Era(Now(), t)
      ensures clock == old(clock) + 1 && (era.None? ==> Doubtful(old(clock), clock))
      ensures Undisturbed() ==> trace == old(trace) && era.Some?
    {
      era := ReadEra(t);
      QuietWrites(old(trace), trace, t, v);
      WritesOnlyThen(start, old(trace), trace, t, v);
    }

    /** One attempt of `Create`, made in a call that began with the timeline `start`. */
    method CreateOnce(t: Seq, v: Bytes, ghost start: Trace) returns (again: bool, c: Created)
      requires Valid() && start != [] && start <= trace && WritesOnly(start, trace, t, v)
      modifies this
      ensures Valid() && old(trace) <= trace && WritesOnly(start, trace, t, v) && SentOnly(old(sent), sent, t, v)
      ensures !again && c.Landed? ==> Planted(trace, |start|, t, v)
      ensures !again && c.AlreadyExists? ==> Taken(trace, |start| - 1, t)
      ensures !again && c.Unresolved? ==> Doubtful(old(clock), clock)
      ensures old(clock) <= clock && (again ==> EraMoved(trace, |trace|, t) && |sent| > |old(sent)|)
      ensures Undisturbed() ==> !again && if t in old(Now()).slots then c.AlreadyExists? && trace == old(trace)
        else c.Landed? && PutStep(old(Now()), Now(), t, v)
    {
      hide WritesOnly, EraMoved, Undisturbed, Doubtful, Planted, PlantedAs, Taken, TakenOver, Vacated;
      again, c := false, Unresolved;
      ghost var first := clock;
      var era := Stamp(t, v, start);
      if era.None? { return; }
      ghost var stamped, second := |trace| - 1, clock;
      ghost var before := trace;
      var put := PutIfAbsent(t, Stored(era.value, v));
      WritesOnlyThen(start, before, trace, t, v);
      DoubtGrows(first, second, clock);
      if put.Refused? {
        TakenNow(trace, |start| - 1, t);
        c := AlreadyExists;
      }
      if !put.Done? { return; }
      PlantedNow(trace, |start|, t, Stored(era.value, v));
      ghost var third := clock;
      ghost var landed := |trace| - 1;
      again, c := Recheck(t, Stored(era.value, v), start, stamped);
      DoubtGrows(first, third, clock);
      if !again && c.AlreadyExists? { TakenOverIsTaken(trace, |start| - 1, landed, t, Stored(era.value, v)); }
    }

    /** Our publication landed: read the counter again. */
    method Recheck(t: Seq, stored: Stored, ghost start: Trace, ghost stamped: nat)
        returns (again: bool, c: Created)
      requires Valid() && start != [] && start <= trace && WritesOnly(start, trace, t, stored.bytes)
      requires stamped < |trace| && Era(trace[stamped].snap, t) == stored.era
      requires PlantedAs(trace, |start|, t, stored)
      modifies this
      ensures Valid() && old(trace) <= trace && WritesOnly(start, trace, t, stored.bytes)
      ensures SentOnly(old(sent), sent, t, stored.bytes)
      ensures !again && c.Landed? ==> Planted(trace, |start|, t, stored.bytes)
      ensures !again && c.AlreadyExists? ==> TakenOver(trace, |old(trace)| - 1, t, stored)
      ensures !again && c.Unresolved? ==> Doubtful(old(clock), clock)
      ensures old(clock) <= clock && (again ==> EraMoved(trace, |trace|, t) && Vacated(trace, |old(trace)| - 1, t))
      ensures Undisturbed() ==>
        if Era(old(Now()), t) == stored.era then !again && c.Landed? && trace == old(trace)
        else t in old(Now()).slots && old(Now()).slots[t] == stored ==>
          again && Now() == old(Now()).(slots := old(Now()).slots - {t})
    {
      hide WritesOnly, Undisturbed, Planted, PlantedAs, TakenOver, Vacated, Doubtful;
      again, c := false, Unresolved;
      ghost var first := clock;
      var now := Stamp(t, stored.bytes, start);
      PlantedStays(old(trace), trace, |start|, t, stored);
      if now.None? { return; }
      if now.value == stored.era {
        PlantedOpen(trace, |start|, t, stored);
        c := Landed;
        return;
      }
      assert Era(trace[stamped].snap, t) != Era(trace[|trace| - 1].snap, t);
      assert EraMoved(trace, |trace|, t);
      ghost var second, rechecked := clock, |trace|;
      again, c := Withdraw(t, stored, start);
      DoubtGrows(first, second, clock);
      SightGrows(trace, |old(trace)| - 1, rechecked - 1, t, stored);
    }

    /** The stamped incarnation is closed: withdraw exactly our own publication, if it still stands. */
    method Withdraw(t: Seq, stored: Stored, ghost start: Trace) returns (again: bool, c: Created)
      requires Valid() && start != [] && start <= trace && WritesOnly(start, trace, t, stored.bytes)
      requires EraMoved(trace, |trace|, t)
      modifies this
      ensures Valid() && old(trace) <= trace && WritesOnly(start, trace, t, stored.bytes)
      ensures SentOnly(old(sent), sent, t, stored.bytes) && !c.Landed?
      ensures !again && c.AlreadyExists? ==> TakenOver(trace, |old(trace)| - 1, t, stored)
      ensures !again && c.Unresolved? ==> Doubtful(old(clock), clock)
      ensures again ==> Vacated(trace, |old(trace)| - 1, t)
      ensures Undisturbed() && t in old(Now()).slots && old(Now()).slots[t] == stored ==>
        again && Now() == old(Now()).(slots := old(Now()).slots - {t})
      ensures old(clock) <= clock && (again ==> EraMoved(trace, |trace|, t))
    {
      hide TakenOver, Vacated, Doubtful, WritesOnly, EraMoved, Undisturbed;
      again, c := false, Unresolved;
      ghost var first := clock;
      var reached, found := GetStored(t);
      ghost var before, second := trace, clock;
      QuietWrites(old(trace), before, t, stored.bytes);
      WritesOnlyThen(start, old(trace), before, t, stored.bytes);
      EraMovedExtends(old(trace), before, |old(trace)|, |before|, t);
      if !reached { return; }
      if found.None? {
        VacatedNow(trace, |old(trace)| - 1, t);
        again := true;
        return;
      }
      if found.value != stored {
        TakenOverNow(trace, |old(trace)| - 1, t, stored);
        c := AlreadyExists;
        return;
      }
      var gone := EvictIfMatch(t, stored);
      WritesOnlyThen(start, before, trace, t, stored.bytes);
      EraMovedExtends(before, trace, |before|, |trace|, t);
      DoubtGrows(first, second, clock);
      again := gone.Done? || gone.Missing?;
      c := if gone.Refused? then AlreadyExists else Unresolved;
      if gone.Refused? { TakenOverNow(trace, |old(trace)| - 1, t, stored); }
      if again { VacatedNow(trace, |old(trace)| - 1, t); }
    }
  }

  /** The call itself put the value there, where nothing stood. */
  ghost predicate PlantedAs(trace: Trace, from: nat, t: Seq, stored: Stored) {
    exists i :: from <= i < |trace| && OwnPut(trace, i, t, stored.bytes) && trace[i].snap.slots[t] == stored
  }

  predicate OwnPut(trace: Trace, i: nat, t: Seq, v: Bytes) {
    0 < i < |trace| && trace[i].own && PutStep(trace[i - 1].snap, trace[i].snap, t, v)
  }

  /** And a later look at the counter found the incarnation that it was stamped with. */
  ghost predicate Planted(trace: Trace, from: nat, t: Seq, v: Bytes) {
    exists i, j :: from <= i <= j < |trace| && OwnPut(trace, i, t, v)
      && Era(trace[j].snap, t) == trace[i].snap.slots[t].era
  }

  /** Something stood in the slot. */
  ghost predicate Taken(trace: Trace, from: nat, t: Seq) {
    exists i :: from <= i < |trace| && t in trace[i].snap.slots
  }

  /** Something other than this publication stood in the slot. */
  ghost predicate TakenOver(trace: Trace, from: nat, t: Seq, stored: Stored) {
    exists i :: from <= i < |trace| && t in trace[i].snap.slots && trace[i].snap.slots[t] != stored
  }

  /** The slot stood empty. */
  ghost predicate Vacated(trace: Trace, from: nat, t: Seq) {
    exists i :: from <= i < |trace| && t !in trace[i].snap.slots
  }

  lemma TakenOverNow(trace: Trace, from: nat, t: Seq, stored: Stored)
    requires from < |trace| && t in trace[|trace| - 1].snap.slots && trace[|trace| - 1].snap.slots[t] != stored
    ensures TakenOver(trace, from, t, stored)
  {
  }

  lemma VacatedNow(trace: Trace, from: nat, t: Seq)
    requires from < |trace| && t !in trace[|trace| - 1].snap.slots
    ensures Vacated(trace, from, t)
  {
  }

  lemma SightGrows(trace: Trace, from: nat, mid: nat, t: Seq, stored: Stored)
    requires from <= mid
    ensures TakenOver(trace, mid, t, stored) ==> TakenOver(trace, from, t, stored)
    ensures Vacated(trace, mid, t) ==> Vacated(trace, from, t)
  {
  }

  lemma TakenOverIsTaken(trace: Trace, from: nat, mid: nat, t: Seq, stored: Stored)
    requires from <= mid && TakenOver(trace, mid, t, stored)
    ensures Taken(trace, from, t)
  {
  }

  lemma PlantedNow(trace: Trace, from: nat, t: Seq, stored: Stored)
    requires from < |trace| && OwnPut(trace, |trace| - 1, t, stored.bytes) && trace[|trace| - 1].snap.slots[t] == stored
    ensures PlantedAs(trace, from, t, stored)
  {
  }

  lemma PlantedOpen(trace: Trace, from: nat, t: Seq, stored: Stored)
    requires PlantedAs(trace, from, t, stored) && Era(trace[|trace| - 1].snap, t) == stored.era
    ensures Planted(trace, from, t, stored.bytes)
  {
  }

  lemma TakenNow(trace: Trace, from: nat, t: Seq)
    requires from < |trace| && t in trace[|trace| - 1].snap.slots
    ensures Taken(trace, from, t)
  {
  }

  lemma PlantedStays(a: Trace, b: Trace, from: nat, t: Seq, stored: Stored)
    requires a <= b && PlantedAs(a, from, t, stored)
    ensures PlantedAs(b, from, t, stored)
  {
    var i :| from <= i < |a| && OwnPut(a, i, t, stored.bytes) && a[i].snap.slots[t] == stored;
    assert b[i] == a[i] && b[i - 1] == a[i - 1];
  }

  lemma EvictionIsOwn(trace: Trace, gone: Moment, t: Seq, stored: Stored)
    requires trace != [] && EraMoved(trace, |trace|, t)
    requires var s := trace[|trace| - 1].snap;
      t in s.slots && s.slots[t] == stored && gone == Moment(true, s.(slots := s.slots - {t}))
    ensures WritesOnly(trace, trace + [gone], t, stored.bytes)
  {
    var b := trace + [gone];
    EraMovedExtends(trace, b, |trace|, |trace|, t);
    assert OwnStep(b, |trace|, t, stored.bytes);
  }

  lemma QuietGrows(a: Trace, b: Trace)
    requires Quiet(a, b)
    ensures a <= b
  {
  }

  lemma EraMovedExtends(a: Trace, b: Trace, k: nat, l: nat, t: Seq)
    requires a <= b && EraMoved(a, k, t) && k <= l <= |b|
    ensures EraMoved(b, l, t)
  {
    var i, j :| 0 <= i < k && 0 <= j < k && k <= |a| && Era(a[i].snap, t) != Era(a[j].snap, t);
    assert Era(b[i].snap, t) != Era(b[j].snap, t);
  }
}
