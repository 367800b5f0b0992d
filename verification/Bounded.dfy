/** The strict paged window read: exactly the demanded seqs, or the lowest problem among them. */
module Bounded {
  import opened Basics
  import opened Keys
  import opened Timelines
  import opened LogStore
  import opened AppendExpected

  const FETCH_PARALLELISM: nat := 8

  datatype RangeError =
    | BadArgument
    | NotFound
    | Damaged(at: Seq)
    | Missing(at: Seq)
    | OffsetExpired(firstRetained: Seq)
    | StoreDown

  datatype Range = Page(events: seq<Envelope>, reachedEnd: bool) | Rejected(error: RangeError)

  /** The last seq of the demanded page: addition saturates. */
  function PageEnd(after: Seq, through: Seq, limit: nat): Seq {
    if through - after <= limit then through else after + limit
  }

  /** Exactly this event, to the last byte, was read at this position during the call. */
  ghost predicate SawEvent(trace: Trace, start: nat, stream: string, t: Seq, e: Envelope) {
    exists i :: start <= i < |trace| && EventAt(trace[i].snap, stream, t) == Some(e)
  }

  /** Consecutive verified events from `after + 1`, each seen in the log during the call. */
  ghost predicate Window(trace: Trace, start: nat, stream: string, after: Seq, events: seq<Envelope>) {
    && after + |events| <= U64_MAX
    && forall i :: 0 <= i < |events| ==> SeenAt(trace, start, stream, after, events, i)
  }

  ghost predicate SeenAt(trace: Trace, start: nat, stream: string, after: Seq, events: seq<Envelope>, i: nat)
    requires i < |events| && after + |events| <= U64_MAX
  {
    events[i].at == after + 1 + i && SawEvent(trace, start, stream, after + 1 + i, events[i])
  }

  /** An error names the lowest problem: everything demanded below it was verified. */
  ghost predicate LowestProblem(trace: Trace, start: nat, stream: string, after: Seq, end: Seq, t: Seq) {
    && after < t <= end
    && forall s: Seq :: after < s < t ==> SawSome(trace, start, stream, s)
  }

  ghost predicate SawSome(trace: Trace, start: nat, stream: string, s: Seq) {
    exists e :: SawEvent(trace, start, stream, s, e)
  }

  ghost predicate ErrorTrue(trace: Trace, start: nat, stream: string, after: Seq, end: Seq, e: RangeError) {
    match e
    case NotFound => SawAbsent(trace, start, 0)
    case Damaged(t) =>
      SawCorrupt(trace, start, stream, t) && (t == 0 || LowestProblem(trace, start, stream, after, end, t))
    case Missing(t) => SawAbsent(trace, start, t) && LowestProblem(trace, start, stream, after, end, t)
    case OffsetExpired(first) => SawFloor(trace, start, first) && after + 1 < first
    case _ => true
  }

  datatype Fetched = Event(envelope: Envelope) | Hole | Failure(error: RangeError)

  ghost predicate FetchTrue(trace: Trace, start: nat, stream: string, t: Seq, f: Fetched) {
    match f
    case Event(e) => e.at == t && SawEvent(trace, start, stream, t, e)
    case Hole => SawAbsent(trace, start, t)
    case Failure(error) =>
      && (error.Damaged? ==> error.at == t && SawCorrupt(trace, start, stream, t))
      && (error.Damaged? || error.StoreDown? || error.BadArgument?)
  }

  lemma FetchGrows(a: Trace, b: Trace, start: nat, stream: string, t: Seq, f: Fetched)
    requires a <= b && FetchTrue(a, start, stream, t, f)
    ensures FetchTrue(b, start, stream, t, f)
  {
    assert forall i :: 0 <= i < |a| ==> a[i] == b[i];
  }

  /** What an undisturbed fetch finds. */
  function FetchAlone(s: Snapshot, stream: string, t: Seq): Fetched {
    match EventAt(s, stream, t)
    case Some(e) => Event(e)
    case None => if t in s.slots then Failure(RangeError.Damaged(t)) else Hole
  }

  /** An error that names no position is given only when a request failed, or was refused. */
  ghost predicate Excused(log: Log, from: nat, e: RangeError)
    reads log
  {
    match e
    case StoreDown => log.WentDown(from, log.clock)
    case BadArgument => log.WasRefused(from, log.clock)
    case _ => true
  }

  lemma ExcusedSince(log: Log, from: nat, mid: nat, e: RangeError)
    requires from <= mid && Excused(log, mid, e)
    ensures Excused(log, from, e)
  {
  }

  method StrictFetch(log: Log, ghost start: nat, stream: string, t: Seq) returns (f: Fetched)
    requires log.Valid() && start < |log.trace|
    modifies log
    ensures log.Valid() && Quiet(old(log.trace), log.trace) && log.sent == old(log.sent)
    ensures FetchTrue(log.trace, start, stream, t, f)
    ensures old(log.clock) <= log.clock && (f.Failure? ==> Excused(log, old(log.clock), f.error))
    ensures log.Undisturbed() ==> log.trace == old(log.trace) && f == FetchAlone(log.Now(), stream, t)
  {
    var g := log.Get(t);
    ghost var i := |log.trace| - 1;
    match g {
      case Found(bytes) =>
        match Decode(stream, t, bytes) {
          case Some(e) =>
            f := Event(e);
            assert EventAt(log.trace[i].snap, stream, t) == Some(e);
          case None =>
            f := Failure(RangeError.Damaged(t));
            assert Undecodable(log.trace[i].snap, stream, t);
        }
      case Absent => f := Hole;
      case Broken =>
        f := Failure(RangeError.Damaged(t));
        assert Undecodable(log.trace[i].snap, stream, t);
      case Inadmissible => f := Failure(BadArgument);
      case Unreachable => f := Failure(StoreDown);
    }
  }

  /** Fetch `want` seqs from `next`; all are fetched before any is judged. */
  method FetchChunk(log: Log, ghost start: nat, stream: string, next: Seq, want: nat) returns (results: seq<Fetched>)
    requires log.Valid() && start < |log.trace| && next + want <= U64_MAX + 1
    modifies log
    ensures log.Valid() && Quiet(old(log.trace), log.trace) && log.sent == old(log.sent)
    ensures |results| == want && old(log.clock) <= log.clock
    ensures forall i :: 0 <= i < want ==> FetchTrue(log.trace, start, stream, next + i, results[i])
    ensures forall i :: 0 <= i < want && results[i].Failure? ==> Excused(log, old(log.clock), results[i].error)
    ensures log.Undisturbed() ==> log.trace == old(log.trace)
    ensures log.Undisturbed() ==> forall i :: 0 <= i < want ==> results[i] == FetchAlone(log.Now(), stream, next + i)
  {
    hide FetchTrue, FetchAlone, Log.WentDown, Log.WasRefused;
    results := [];
    for i := 0 to want
      invariant log.Valid() && Quiet(old(log.trace), log.trace) && log.sent == old(log.sent)
      invariant |results| == i && old(log.clock) <= log.clock
      invariant log.Undisturbed() ==> log.trace == old(log.trace)
      invariant log.Undisturbed() ==> forall j :: 0 <= j < i ==> results[j] == FetchAlone(log.Now(), stream, next + j)
      invariant forall j :: 0 <= j < i ==> FetchTrue(log.trace, start, stream, next + j, results[j])
      invariant forall j :: 0 <= j < i && results[j].Failure? ==> Excused(log, old(log.clock), results[j].error)
    {
      ghost var before, mid := log.trace, log.clock;
      var f := StrictFetch(log, start, stream, next + i);
      forall j | 0 <= j < i ensures FetchTrue(log.trace, start, stream, next + j, results[j]) {
        FetchGrows(before, log.trace, start, stream, next + j, results[j]);
      }
      DownStill(log, old(log.clock), mid, log.clock);
      DownSince(log, old(log.clock), mid, log.clock);
      results := results + [f];
    }
  }

  lemma WindowGrows(a: Trace, b: Trace, start: nat, stream: string, after: Seq, events: seq<Envelope>)
    requires a <= b && Window(a, start, stream, after, events)
    ensures Window(b, start, stream, after, events)
  {
    assert forall i :: 0 <= i < |a| ==> a[i] == b[i];
    forall i | 0 <= i < |events| ensures SeenAt(b, start, stream, after, events, i) {
      assert SeenAt(a, start, stream, after, events, i);
    }
  }

  lemma WindowSnoc(trace: Trace, start: nat, stream: string, after: Seq, events: seq<Envelope>, e: Envelope)
    requires Window(trace, start, stream, after, events) && after + |events| < U64_MAX
    requires FetchTrue(trace, start, stream, after + 1 + |events|, Event(e))
    ensures Window(trace, start, stream, after, events + [e])
  {
    forall i | 0 <= i < |events + [e]| ensures SeenAt(trace, start, stream, after, events + [e], i) {
      if i < |events| { assert SeenAt(trace, start, stream, after, events, i); }
    }
  }

  /** Everything served so far was verified, so the next problem is the lowest. */
  lemma ServedBelow(trace: Trace, start: nat, stream: string, after: Seq, end: Seq, events: seq<Envelope>)
    requires Window(trace, start, stream, after, events) && after + |events| < end
    ensures LowestProblem(trace, start, stream, after, end, after + 1 + |events|)
  {
    forall s: Seq | after < s < after + 1 + |events| ensures SawSome(trace, start, stream, s) {
      assert SeenAt(trace, start, stream, after, events, s - after - 1);
    }
  }

  /** Every seq of the page is there and verifies. */
  ghost predicate Dense(s: Snapshot, stream: string, after: Seq, end: Seq) {
    forall t: Seq :: after < t <= end ==> EventAt(s, stream, t).Some?
  }

  /** A strict read of the page finds nothing in its way. */
  ghost predicate Complete(s: Snapshot, stream: string, after: Seq, end: Seq) {
    EventAt(s, stream, 0).Some? && Floor(s) <= after + 1 && Dense(s, stream, after, end)
  }

  /** The one refusal that the state of the log determines. */
  ghost predicate RefusalAlone(s: Snapshot, stream: string, after: Seq, end: Seq, e: RangeError) {
    match e
    case NotFound => 0 !in s.slots
    case OffsetExpired(first) => EventAt(s, stream, 0).Some? && first == Floor(s) && after + 1 < first
    case Damaged(t) =>
      Undecodable(s, stream, t) && (t == 0 || (EventAt(s, stream, 0).Some? && LowestFault(s, stream, after, end, t)))
    case Missing(t) => t !in s.slots && EventAt(s, stream, 0).Some? && LowestFault(s, stream, after, end, t)
    case _ => false
  }

  ghost predicate LowestFault(s: Snapshot, stream: string, after: Seq, end: Seq, t: Seq) {
    Floor(s) <= after + 1 && after < t <= end && Dense(s, stream, after, t - 1)
  }

  /** The events of the snapshot, from `after + 1` on. */
  ghost predicate PageOf(s: Snapshot, stream: string, after: Seq, events: seq<Envelope>) {
    forall i :: 0 <= i < |events| && after + 1 + i <= U64_MAX ==> EventAt(s, stream, after + 1 + i) == Some(events[i])
  }

  /** The answer of an undisturbed read. */
  ghost predicate RangeAlone(s: Snapshot, stream: string, after: Seq, end: Seq, r: Range) {
    match r
    case Page(events, _) => Complete(s, stream, after, end) && PageOf(s, stream, after, events)
    case Rejected(e) => !Complete(s, stream, after, end) && RefusalAlone(s, stream, after, end, e)
  }

  /** It is one answer: two refusals of one state are equal. */
  lemma OneRefusal(s: Snapshot, stream: string, after: Seq, end: Seq, e1: RangeError, e2: RangeError)
    requires RefusalAlone(s, stream, after, end, e1) && RefusalAlone(s, stream, after, end, e2)
    ensures e1 == e2
  {
    hide EventAt;
    assert EventAt(s, stream, 0).Some? ==> 0 in s.slots by { HasSlot(s, stream, 0); }
    if (e1.Damaged? || e1.Missing?) && (e2.Damaged? || e2.Missing?) && e1.at != 0 && e2.at != 0 {
      HasSlot(s, stream, e1.at);
      HasSlot(s, stream, e2.at);
    }
  }

  lemma HasSlot(s: Snapshot, stream: string, t: Seq)
    ensures EventAt(s, stream, t).Some? ==> t in s.slots && !Undecodable(s, stream, t)
  {
  }

  /** Everything up to here is served, and the next fetch finds a fault. */
  lemma FaultNext(s: Snapshot, stream: string, after: Seq, end: Seq, t: Seq)
    requires Floor(s) <= after + 1 && EventAt(s, stream, 0).Some? && after < t <= end && Dense(s, stream, after, t - 1)
    ensures FetchAlone(s, stream, t).Hole? ==> RangeAlone(s, stream, after, end, Rejected(RangeError.Missing(t)))
    ensures FetchAlone(s, stream, t).Failure? ==>
      RangeAlone(s, stream, after, end, Rejected(FetchAlone(s, stream, t).error))
    ensures FetchAlone(s, stream, t).Event? ==> Dense(s, stream, after, t)
  {
  }

  /** One demanded page past the gates: chunk by chunk, to the page end even when that is the largest seq. */
  method ReadPage(log: Log, ghost start: nat, stream: string, after: Seq, through: Seq, limit: nat) returns (r: Range)
    requires log.Valid() && start < |log.trace| && limit > 0 && after < through
    modifies log
    ensures log.Valid() && Quiet(old(log.trace), log.trace) && log.sent == old(log.sent)
    ensures r.Page? ==>
      && Window(log.trace, start, stream, after, r.events)
      && after + |r.events| == PageEnd(after, through, limit)
      && (r.reachedEnd <==> after + |r.events| == through)
    ensures r.Rejected? ==> ErrorTrue(log.trace, start, stream, after, PageEnd(after, through, limit), r.error)
    ensures old(log.clock) <= log.clock && (r.Rejected? ==> Excused(log, old(log.clock), r.error))
    ensures log.Undisturbed() ==> log.trace == old(log.trace)
    ensures log.Undisturbed() && EventAt(log.Now(), stream, 0).Some? && Floor(log.Now()) <= after + 1 ==>
      RangeAlone(log.Now(), stream, after, PageEnd(after, through, limit), r)
  {
    hide EventAt, Excused, RangeAlone, SeenAt, ErrorTrue, FetchTrue, FetchAlone;
    var pageEnd := PageEnd(after, through, limit);
    var events: seq<Envelope> := [];
    var next := after + 1;
    while next <= pageEnd
      invariant log.Valid() && Quiet(old(log.trace), log.trace) && log.sent == old(log.sent)
      invariant next == after + 1 + |events| <= pageEnd + 1 && old(log.clock) <= log.clock
      invariant log.Undisturbed() ==> log.trace == old(log.trace)
      invariant Window(log.trace, start, stream, after, events)
      invariant log.Undisturbed() && Gated(log.Now(), stream, after) ==>
        Dense(log.Now(), stream, after, next - 1) && PageOf(log.Now(), stream, after, events)
      decreases pageEnd + 1 - next
    {
      var remaining := pageEnd - next + 1;
      var want := if FETCH_PARALLELISM < remaining then FETCH_PARALLELISM else remaining;
      ghost var before, mid := log.trace, log.clock;
      var results := FetchChunk(log, start, stream, next, want);
      WindowGrows(before, log.trace, start, stream, after, events);
      var stopped;
      events, stopped := ServeChunk(log, start, stream, after, pageEnd, next, results, events);
      if stopped.Some? {
        ChunkExcused(log, old(log.clock), mid, results, stopped.value);
        return Rejected(stopped.value);
      }
      next := next + want;
    }
    WholePage(log.trace, start, stream, after, events);
    r := Page(events, events != [] && events[|events| - 1].at == through);
    PageAnswers(log.Now(), stream, after, pageEnd, events, through);
  }

  ghost predicate Gated(s: Snapshot, stream: string, after: Seq) {
    EventAt(s, stream, 0).Some? && Floor(s) <= after + 1
  }

  lemma WholePage(trace: Trace, start: nat, stream: string, after: Seq, events: seq<Envelope>)
    requires Window(trace, start, stream, after, events) && events != []
    ensures events[|events| - 1].at == after + |events|
  {
    assert SeenAt(trace, start, stream, after, events, |events| - 1);
  }

  lemma PageAnswers(s: Snapshot, stream: string, after: Seq, end: Seq, events: seq<Envelope>, through: Seq)
    ensures (Gated(s, stream, after) && Dense(s, stream, after, end) && PageOf(s, stream, after, events)) ==>
      forall reached :: RangeAlone(s, stream, after, end, Page(events, reached))
  {
  }

  lemma ChunkExcused(log: Log, from: nat, mid: nat, results: seq<Fetched>, e: RangeError)
    requires from <= mid
    requires e.Missing? || exists i :: 0 <= i < |results| && results[i].Failure? && results[i].error == e
    requires forall i :: 0 <= i < |results| && results[i].Failure? ==> Excused(log, mid, results[i].error)
    ensures Excused(log, from, e)
  {
    if !e.Missing? { ExcusedSince(log, from, mid, e); }
  }

  /** Judge a fetched chunk, in order: serve its events up to the first problem. */
  method ServeChunk(log: Log, ghost start: nat, stream: string, after: Seq, ghost end: Seq, next: Seq,
                    results: seq<Fetched>, served: seq<Envelope>)
    returns (events: seq<Envelope>, stopped: Option<RangeError>)
    requires log.Valid() && start < |log.trace|
    requires next == after + 1 + |served| && next + |results| <= end + 1
    requires Window(log.trace, start, stream, after, served)
    requires forall i :: 0 <= i < |results| ==> FetchTrue(log.trace, start, stream, next + i, results[i])
    ensures stopped.None? ==>
      |events| == |served| + |results| && Window(log.trace, start, stream, after, events)
    ensures stopped.Some? ==> ErrorTrue(log.trace, start, stream, after, end, stopped.value)
    ensures stopped.Some? ==>
      stopped.value.Missing? ||
      exists i :: 0 <= i < |results| && results[i].Failure? && results[i].error == stopped.value
    ensures (Gated(log.Now(), stream, after) && Dense(log.Now(), stream, after, next - 1)
             && PageOf(log.Now(), stream, after, served)
             && forall i :: 0 <= i < |results| ==> results[i] == FetchAlone(log.Now(), stream, next + i)) ==>
      if stopped.Some? then RangeAlone(log.Now(), stream, after, end, Rejected(stopped.value))
      else Dense(log.Now(), stream, after, next + |results| - 1) && PageOf(log.Now(), stream, after, events)
  {
    hide EventAt, RangeAlone, SeenAt, FetchTrue, FetchAlone, ErrorTrue, Window, Dense, PageOf;
    events, stopped := served, None;
    for i := 0 to |results|
      invariant |events| == |served| + i && Window(log.trace, start, stream, after, events)
      invariant (Gated(log.Now(), stream, after) && Dense(log.Now(), stream, after, next - 1)
                 && PageOf(log.Now(), stream, after, served)
                 && forall j :: 0 <= j < |results| ==> results[j] == FetchAlone(log.Now(), stream, next + j)) ==>
        Dense(log.Now(), stream, after, next + i - 1) && PageOf(log.Now(), stream, after, events)
    {
      assert FetchTrue(log.trace, start, stream, next + i, results[i]);
      ServedBelow(log.trace, start, stream, after, end, events);
      ProblemTrue(log.trace, start, stream, after, end, next + i, results[i]);
      NextAlone(log.Now(), stream, after, end, next + i, events, results[i]);
      match results[i] {
        case Event(e) =>
          WindowSnoc(log.trace, start, stream, after, events, e);
          events := events + [e];
        case Hole => return events, Some(RangeError.Missing(next + i));
        case Failure(error) => return events, Some(error);
      }
    }
  }

  lemma ProblemTrue(trace: Trace, start: nat, stream: string, after: Seq, end: Seq, t: Seq, f: Fetched)
    requires FetchTrue(trace, start, stream, t, f) && LowestProblem(trace, start, stream, after, end, t)
    ensures f.Hole? ==> ErrorTrue(trace, start, stream, after, end, RangeError.Missing(t))
    ensures f.Failure? ==> ErrorTrue(trace, start, stream, after, end, f.error)
  {
  }

  lemma NextAlone(s: Snapshot, stream: string, after: Seq, end: Seq, t: Seq, events: seq<Envelope>, f: Fetched)
    requires t == after + 1 + |events| <= end
    ensures Gated(s, stream, after) && Dense(s, stream, after, t - 1) && f == FetchAlone(s, stream, t) ==>
      && (f.Hole? ==> RangeAlone(s, stream, after, end, Rejected(RangeError.Missing(t))))
      && (f.Failure? ==> RangeAlone(s, stream, after, end, Rejected(f.error)))
      && (f.Event? ==> Dense(s, stream, after, t)
                       && (PageOf(s, stream, after, events) ==> PageOf(s, stream, after, events + [f.envelope])))
  {
    if Gated(s, stream, after) && Dense(s, stream, after, t - 1) && f == FetchAlone(s, stream, t) {
      FaultNext(s, stream, after, end, t);
      if f.Event? && PageOf(s, stream, after, events) { PageSnoc(s, stream, after, events, f.envelope); }
    }
  }

  lemma PageSnoc(s: Snapshot, stream: string, after: Seq, events: seq<Envelope>, e: Envelope)
    requires PageOf(s, stream, after, events) && after + 1 + |events| <= U64_MAX
    requires FetchAlone(s, stream, after + 1 + |events|) == Event(e)
    ensures PageOf(s, stream, after, events + [e])
  {
    hide EventAt;
  }

  /**
   The window read.  A page is exactly the demanded seqs; every refusal was true of the log during the
   call and names the lowest demanded problem, or a request failed; bad arguments touch nothing; nothing
   is ever written; and an undisturbed read answers as the log's state determines.
  */
  method ReadRange(log: Log, stream: string, after: Seq, through: Seq, limit: nat) returns (r: Range)
    requires log.Valid()
    modifies log
    ensures log.Valid() && Quiet(old(log.trace), log.trace) && log.sent == old(log.sent)
    ensures !ValidIdentifier(stream) || limit == 0 || after >= through ==>
      r == Rejected(BadArgument) && log.trace == old(log.trace)
    ensures r.Page? ==>
      && after < through && limit > 0
      && Window(log.trace, |old(log.trace)| - 1, stream, after, r.events)
      && after + |r.events| == PageEnd(after, through, limit)
      && (r.reachedEnd <==> after + |r.events| == through)
    ensures r.Rejected? && limit > 0 && after < through ==>
      ErrorTrue(log.trace, |old(log.trace)| - 1, stream, after, PageEnd(after, through, limit), r.error)
    ensures ValidIdentifier(stream) && limit > 0 && after < through && r.Rejected? ==>
      Excused(log, old(log.clock), r.error)
    ensures ValidIdentifier(stream) && limit > 0 && after < through && log.Undisturbed() ==>
      && log.trace == old(log.trace)
      && RangeAlone(old(log.Now()), stream, after, PageEnd(after, through, limit), r)
    ensures old(log.clock) <= log.clock
  {
    hide EventAt, Excused, RangeAlone, ErrorTrue, FetchTrue, FetchAlone;
    if !ValidIdentifier(stream) || limit == 0 || after >= through {
      if after < through {
        FloorProblem(log, log.clock, |log.trace| - 1, stream, after, PageEnd(after, through, limit));
      }
      return Rejected(BadArgument);
    }
    ghost var start, from, end := |log.trace| - 1, log.clock, PageEnd(after, through, limit);
    var genesis := StrictFetch(log, start, stream, 0);
    GenesisProblem(log.trace, start, stream, after, end, genesis);
    GenesisAlone(log.Now(), stream, after, end);
    AlwaysExcused(log, from);
    match genesis {
      case Hole => return Rejected(RangeError.NotFound);
      case Failure(error) => return Rejected(error);
      case Event(_) =>
    }
    ghost var mid := log.clock;
    var floor := log.GetFloor();
    DownSince(log, from, mid, log.clock);
    FloorProblem(log, from, start, stream, after, end);
    AlwaysExcused(log, from);
    match floor {
      case FloorDown => return Rejected(StoreDown);
      case FloorRejected => return Rejected(BadArgument);
      case Read(f) =>
        if f.Some? && after + 1 < f.value { return Rejected(RangeError.OffsetExpired(f.value)); }
    }
    mid := log.clock;
    r := ReadPage(log, start, stream, after, through, limit);
    if r.Rejected? { ExcusedSince(log, from, mid, r.error); }
  }

  lemma GenesisProblem(trace: Trace, start: nat, stream: string, after: Seq, end: Seq, f: Fetched)
    requires FetchTrue(trace, start, stream, 0, f)
    ensures f.Hole? ==> ErrorTrue(trace, start, stream, after, end, RangeError.NotFound)
    ensures f.Failure? ==> ErrorTrue(trace, start, stream, after, end, f.error)
  {
  }

  lemma GenesisAlone(s: Snapshot, stream: string, after: Seq, end: Seq)
    ensures FetchAlone(s, stream, 0).Hole? ==> RangeAlone(s, stream, after, end, Rejected(RangeError.NotFound))
    ensures FetchAlone(s, stream, 0).Failure? ==>
      RangeAlone(s, stream, after, end, Rejected(FetchAlone(s, stream, 0).error))
    ensures FetchAlone(s, stream, 0).Event? ==> EventAt(s, stream, 0).Some?
  {
  }

  lemma AlwaysExcused(log: Log, from: nat)
    ensures forall e: RangeError :: !e.StoreDown? && !e.BadArgument? ==> Excused(log, from, e)
  {
  }

  lemma FloorProblem(log: Log, from: nat, start: nat, stream: string, after: Seq, end: Seq)
    requires start < |log.trace|
    ensures log.WentDown(from, log.clock) ==> Excused(log, from, StoreDown)
    ensures log.WasRefused(from, log.clock) ==> Excused(log, from, BadArgument)
    ensures ErrorTrue(log.trace, start, stream, after, end, StoreDown)
    ensures ErrorTrue(log.trace, start, stream, after, end, BadArgument)
    ensures var s := log.trace[|log.trace| - 1].snap;
      after + 1 < Floor(s) ==>
        && ErrorTrue(log.trace, start, stream, after, end, RangeError.OffsetExpired(Floor(s)))
        && (EventAt(s, stream, 0).Some? ==>
              RangeAlone(s, stream, after, end, Rejected(RangeError.OffsetExpired(Floor(s)))))
  {
  }

  /**
   Resuming at the last returned seq, with any positive limits, ends; and the pages concatenate to the
   whole window, without gap or repetition.
  */
  method ReadAll(log: Log, stream: string, after: Seq, through: Seq, limits: nat -> nat) returns (r: Range)
    requires log.Valid() && after < through && forall i :: limits(i) > 0
    modifies log
    ensures log.Valid() && Quiet(old(log.trace), log.trace) && log.sent == old(log.sent)
    ensures r.Page? ==>
      && Window(log.trace, |old(log.trace)| - 1, stream, after, r.events)
      && after + |r.events| == through && r.reachedEnd
    ensures ValidIdentifier(stream) && r.Rejected? ==> Excused(log, old(log.clock), r.error)
    ensures ValidIdentifier(stream) && log.Undisturbed() ==>
      log.trace == old(log.trace) && RangeAlone(old(log.Now()), stream, after, through, r)
  {
    hide EventAt, Excused, RangeAlone, ErrorTrue, Dense, PageOf;
    ghost var start := |log.trace| - 1;
    var events: seq<Envelope> := [];
    var calls := 0;
    NothingRead(log.Now(), stream, after);
    while after + |events| < through
      invariant log.Valid() && Quiet(old(log.trace), log.trace) && log.sent == old(log.sent)
      invariant after + |events| <= through && old(log.clock) <= log.clock
      invariant ValidIdentifier(stream) && log.Undisturbed() ==> log.trace == old(log.trace)
      invariant ValidIdentifier(stream) && log.Undisturbed() ==>
        PageOf(log.Now(), stream, after, events) && Dense(log.Now(), stream, after, after + |events|)
      invariant ValidIdentifier(stream) && log.Undisturbed() && events != [] ==> Gated(log.Now(), stream, after)
      invariant Window(log.trace, start, stream, after, events)
      decreases through - after - |events|
    {
      ghost var before, mid := log.trace, log.clock;
      var page := ReadRange(log, stream, after + |events|, through, limits(calls));
      if page.Rejected? {
        if ValidIdentifier(stream) { ExcusedSince(log, old(log.clock), mid, page.error); }
        RefusalOfRest(log.Now(), stream, after, events, through, limits(calls), page.error);
        return page;
      }
      PagesJoin(log.Now(), stream, after, events, through, limits(calls), page);
      WindowsJoin(before, log.trace, start, stream, after, events, page.events);
      events := events + page.events;
      calls := calls + 1;
    }
    r := Page(events, true);
    PageAnswers(log.Now(), stream, after, through, events, through);
  }

  lemma NothingRead(s: Snapshot, stream: string, after: Seq)
    ensures PageOf(s, stream, after, []) && Dense(s, stream, after, after)
  {
  }

  /** What ends a later page ends the whole read, and with the same answer. */
  lemma RefusalOfRest(s: Snapshot, stream: string, after: Seq, events: seq<Envelope>, through: Seq, limit: nat,
                      e: RangeError)
    requires after + |events| < through
    ensures var later := after + |events|;
      (RangeAlone(s, stream, later, PageEnd(later, through, limit), Rejected(e))
       && Dense(s, stream, after, later) && (events != [] ==> Gated(s, stream, after))) ==>
      RangeAlone(s, stream, after, through, Rejected(e))
  {
    hide EventAt;
  }

  lemma PagesJoin(s: Snapshot, stream: string, after: Seq, events: seq<Envelope>, through: Seq, limit: nat, page: Range)
    requires after + |events| < through && limit > 0 && page.Page?
    requires after + |events| + |page.events| == PageEnd(after + |events|, through, limit)
    ensures var later := after + |events|;
      (RangeAlone(s, stream, later, PageEnd(later, through, limit), page) && PageOf(s, stream, after, events)
       && Dense(s, stream, after, later) && (events != [] ==> Gated(s, stream, after))) ==>
      && PageOf(s, stream, after, events + page.events) && Gated(s, stream, after)
      && Dense(s, stream, after, later + |page.events|)
  {
    hide EventAt;
  }

  lemma WindowsJoin(a: Trace, b: Trace, start: nat, stream: string, after: Seq,
                    first: seq<Envelope>, second: seq<Envelope>)
    requires a <= b && start < |a| && Window(a, start, stream, after, first)
    requires Window(b, |a| - 1, stream, after + |first|, second)
    ensures Window(b, start, stream, after, first + second)
  {
    WindowGrows(a, b, start, stream, after, first);
    forall i | 0 <= i < |first + second| ensures SeenAt(b, start, stream, after, first + second, i) {
      if i < |first| {
        assert SeenAt(b, start, stream, after, first, i);
      } else {
        assert SeenAt(b, |a| - 1, stream, after + |first|, second, i - |first|);
      }
    }
  }

  // ---- Refinement of the one-shot read -----------------------------------------------------

  /** On a legal log, two reads of one retained seq return the same event. */
  lemma SameSeqSameEvent(trace: Trace, i: nat, k: nat, stream: string, t: Seq, e1: Envelope, e2: Envelope)
    requires Legal(trace) && i <= k < |trace| && Floor(trace[k].snap) <= t
    requires EventAt(trace[i].snap, stream, t) == Some(e1) && EventAt(trace[k].snap, stream, t) == Some(e2)
    ensures e1 == e2
  {
    SlotStays(trace, i, k, t, trace[i].snap.slots[t].bytes);
  }

  /**
   On a legal log whose floor has not passed the start of the range, any two windows of one range are
   equal event by event, however they were paged and whenever they were read.
  */
  lemma WindowsAgree(trace: Trace, s1: nat, s2: nat, stream: string, after: Seq, e1: seq<Envelope>, e2: seq<Envelope>)
    requires Legal(trace) && trace != [] && Floor(trace[|trace| - 1].snap) <= after + 1
    requires Window(trace, s1, stream, after, e1) && Window(trace, s2, stream, after, e2) && |e1| == |e2|
    ensures e1 == e2
  {
    forall n | 0 <= n < |e1| ensures e1[n] == e2[n] {
      var t: Seq := after + 1 + n;
      assert SeenAt(trace, s1, stream, after, e1, n) && SeenAt(trace, s2, stream, after, e2, n);
      var i :| s1 <= i < |trace| && EventAt(trace[i].snap, stream, t) == Some(e1[n]);
      var k :| s2 <= k < |trace| && EventAt(trace[k].snap, stream, t) == Some(e2[n]);
      FloorsRise(trace, i, |trace| - 1);
      FloorsRise(trace, k, |trace| - 1);
      if i <= k {
        SameSeqSameEvent(trace, i, k, stream, t, e1[n], e2[n]);
      } else {
        SameSeqSameEvent(trace, k, i, stream, t, e2[n], e1[n]);
      }
    }
  }

  /** One state of the log has one answer. */
  lemma SameAnswer(s: Snapshot, stream: string, after: Seq, end: Seq, p: Range, q: Range)
    requires p.Page? && q.Page? ==> |p.events| == |q.events| == end - after && (p.reachedEnd <==> q.reachedEnd)
    ensures RangeAlone(s, stream, after, end, p) && RangeAlone(s, stream, after, end, q) ==> p == q
  {
    if RangeAlone(s, stream, after, end, p) && RangeAlone(s, stream, after, end, q) {
      if p.Page? {
        forall i | 0 <= i < |p.events| ensures p.events[i] == q.events[i] {
          assert EventAt(s, stream, after + 1 + i) == Some(p.events[i]);
        }
      } else {
        OneRefusal(s, stream, after, end, p.error, q.error);
      }
    }
  }

  /** So a resumed walk, under any limits, returns what the one-shot read of the window returns. */
  method PagedThenOneShot(log: Log, stream: string, after: Seq, through: Seq, limits: nat -> nat, limit: nat)
    returns (paged: Range, whole: Range)
    requires log.Valid() && after < through && (forall i :: limits(i) > 0) && limit >= through - after
    modifies log
    ensures log.Valid() && Quiet(old(log.trace), log.trace) && log.sent == old(log.sent)
    ensures paged.Page? && whole.Page? && Legal(log.trace) && Floor(log.Now()) <= after + 1 ==> paged == whole
    ensures ValidIdentifier(stream) && log.Undisturbed() ==>
      paged == whole && (paged.Page? <==> Complete(old(log.Now()), stream, after, through))
  {
    paged := ReadAll(log, stream, after, through, limits);
    ghost var middle := log.trace;
    whole := ReadRange(log, stream, after, through, limit);
    SameAnswer(log.Now(), stream, after, through, paged, whole);
    if paged.Page? && whole.Page? {
      WindowGrows(middle, log.trace, |old(log.trace)| - 1, stream, after, paged.events);
      if Legal(log.trace) && Floor(log.Now()) <= after + 1 {
        WindowsAgree(log.trace, |old(log.trace)| - 1, |middle| - 1, stream, after, paged.events, whole.events);
      }
    }
  }

  // ---- Reading what was appended ---------------------------------------------------------

  /** The one page that shows the demanded event and nothing else. */
  ghost predicate Shown(d: Demand, page: Range) {
    && page.Page? && page.reachedEnd && |page.events| == 1 && d.predecessor.at < U64_MAX
    && page.events[0].at == d.predecessor.at + 1 && page.events[0].id == d.id
    && page.events[0].schema == d.schema && page.events[0].payload == d.payload
  }

  lemma ReceiptIsShown(s: Snapshot, t: Snapshot, d: Demand, listed: Option<Seq>, page: Range)
    requires Admission(d).None? && AnswerAlone(s, d, listed).Receipt?
    requires (t == s && Holds(s, TargetOf(d), DesiredBytes(d))) || PutStep(s, t, TargetOf(d), DesiredBytes(d))
    requires RangeAlone(t, d.predecessor.stream, d.predecessor.at, TargetOf(d), page)
    requires page.Page? ==> |page.events| == 1 && page.reachedEnd
    ensures Shown(d, page)
  {
    AdmittedDecodes(d);
    hide ValidIdentifier, EncodedLen, CanonicalDigest, Admission, RefusalAlone;
    assert EventAt(t, d.predecessor.stream, TargetOf(d)) == Some(Desired(d));
    assert Complete(t, d.predecessor.stream, d.predecessor.at, TargetOf(d));
  }

  /** An undisturbed reader finds what an undisturbed writer has just been given a receipt for. */
  method AppendThenRead(log: Log, d: Demand, limit: nat) returns (r: Appended, page: Range)
    requires log.Valid() && limit > 0
    modifies log
    ensures log.Valid() && WritesOnly(old(log.trace), log.trace, TargetOf(d), DesiredBytes(d))
    ensures log.Undisturbed() && r.Receipt? ==> Shown(d, page)
  {
    hide WritesOnly, AnswerAlone, RangeAlone, Shown, EventAt, Window, ErrorTrue, Excused, DeliveredIn, BlamedFor,
      UnsureFor, Cleared, Supports, ConfirmedRetained;
    page := Rejected(BadArgument);
    r := Append(log, d);
    if r.Receipt? {
      ghost var s, t, from, appended := old(log.Now()), log.Now(), old(log.clock), log.trace;
      page := ReadRange(log, d.predecessor.stream, d.predecessor.at, TargetOf(d), limit);
      QuietWrites(appended, log.trace, TargetOf(d), DesiredBytes(d));
      WritesOnlyThen(old(log.trace), appended, log.trace, TargetOf(d), DesiredBytes(d));
      if log.Undisturbed() {
        var k :| old(log.clock) <= k && r == AnswerAlone(s, d, log.listings(k));
        ReceiptIsShown(s, t, d, log.listings(k), page);
      }
    }
  }
}
