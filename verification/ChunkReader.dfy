/** The streaming reader: a window of a chunked value, fetched ahead and completed in any order. */
module ChunkReader {
  import opened Basics
  import opened Values

  const CHUNK_BYTES: nat := 16_777_216
  const MAX_IN_FLIGHT: nat := 4

  // ---- Chunk positions -------------------------------------------------------------

  function Least(a: nat, b: nat): nat { if a <= b then a else b }

  /** The set with the ordinals from `low` up to `high` added. */
  ghost function Extended(s: set<nat>, low: nat, high: nat): (t: set<nat>)
    ensures forall k :: k in t <==> k in s || low <= k < high
    decreases high
  {
    if low < high then Extended(s, low, high - 1) + {high - 1} else s
  }

  lemma ExtendedStep(s: set<nat>, low: nat, high: nat)
    requires low <= high
    ensures Extended(s, low, low) == s && Extended(s, low, high + 1) == Extended(s, low, high) + {high}
  {
  }

  lemma EmptyRange(s: set<nat>, low: nat, high: nat)
    requires forall x :: x in s ==> low <= x < high
    ensures low >= high ==> |s| == 0
  {
    assert low >= high ==> s == {};
  }

  /** Where chunk `k` begins. */
  function Base(k: nat): nat { CHUNK_BYTES * k }

  /** The chunk that holds a position, and the first chunk wholly past an exclusive end. */
  function FirstChunk(start: nat): nat { start / CHUNK_BYTES }

  function PastChunk(end: nat): nat { if end == 0 then 0 else (end - 1) / CHUNK_BYTES + 1 }

  lemma Bases(k: nat)
    ensures Base(0) == 0 && Base(k + 1) == Base(k) + CHUNK_BYTES
    ensures k > 0 ==> Base(k) == Base(k - 1) + CHUNK_BYTES
  {
  }

  lemma BasesRise(j: nat, k: nat)
    ensures j < k <==> Base(j) < Base(k)
    ensures j < k ==> Base(j) + CHUNK_BYTES <= Base(k)
  {
  }

  lemma ChunksAround(start: nat, end: nat, k: nat)
    ensures Base(FirstChunk(start)) <= start < Base(FirstChunk(start) + 1)
    ensures k < PastChunk(end) <==> Base(k) < end
  {
  }

  // ---- The value behind a table --------------------------------------------------

  /** A table that the manifest decoder accepts, each digest standing for the bytes it names. */
  predicate Shape(entries: seq<Entry>) {
    forall i :: 0 <= i < |entries| ==> ShapedAt(entries, i)
  }

  predicate ShapedAt(entries: seq<Entry>, i: nat)
    requires i < |entries|
  {
    && entries[i].len == |entries[i].digest.bytes|
    && (if i < |entries| - 1 then entries[i].len == CHUNK_BYTES else 0 < entries[i].len <= CHUNK_BYTES)
  }

  function Value(entries: seq<Entry>): Payload {
    if entries == [] then [] else Value(entries[..|entries| - 1]) + entries[|entries| - 1].digest.bytes
  }

  lemma ShapeInit(entries: seq<Entry>)
    requires Shape(entries) && entries != []
    ensures Shape(entries[..|entries| - 1])
  {
    var init := entries[..|entries| - 1];
    forall i | 0 <= i < |init| ensures ShapedAt(init, i) {
      assert ShapedAt(entries, i);
    }
  }

  lemma {:induction false} ValueLength(entries: seq<Entry>)
    requires Shape(entries)
    ensures entries == [] ==> |Value(entries)| == 0
    ensures entries != [] ==> |Value(entries)| == Base(|entries| - 1) + entries[|entries| - 1].len
  {
    if entries != [] {
      var init := entries[..|entries| - 1];
      ShapeInit(entries);
      ValueLength(init);
      Bases(|entries| - 1);
      hide Base;
      assert ShapedAt(entries, |entries| - 1);
      if init != [] {
        assert ShapedAt(entries, |entries| - 2);
      }
    }
  }

  /** Where a chunk lies in the value. */
  lemma ChunkBase(entries: seq<Entry>, k: nat)
    requires Shape(entries) && k < |entries|
    ensures |entries[k].digest.bytes| == entries[k].len && 0 < entries[k].len <= CHUNK_BYTES
    ensures Base(k) + entries[k].len <= |Value(entries)|
    ensures |Value(entries[..|entries| - 1])| == Base(|entries| - 1)
    ensures k < |entries| - 1 ==> entries[k].len == CHUNK_BYTES
  {
    var init := entries[..|entries| - 1];
    ValueLength(entries);
    ShapeInit(entries);
    ValueLength(init);
    BasesRise(k, |entries| - 1);
    Bases(|entries| - 1);
    hide Base, Value;
    assert ShapedAt(entries, k) && (init != [] ==> ShapedAt(entries, |entries| - 2));
  }

  /** A slice of a chunk is the slice of the value at the chunk's fixed base. */
  lemma {:induction false} ChunkSlice(entries: seq<Entry>, k: nat, i: nat, j: nat)
    requires Shape(entries) && k < |entries| && i <= j <= entries[k].len
    ensures j <= |entries[k].digest.bytes| && Base(k) + j <= |Value(entries)|
    ensures Value(entries)[Base(k) + i..Base(k) + j] == entries[k].digest.bytes[i..j]
  {
    var last := |entries| - 1;
    var init := entries[..last];
    ChunkBase(entries, k);
    var base := Value(init);
    assert Value(entries) == base + entries[last].digest.bytes;
    if k < last {
      ShapeInit(entries);
      ChunkSlice(init, k, i, j);
      hide Value, Shape, Base;
      SliceOfPrefix(base, entries[last].digest.bytes, Base(k) + i, Base(k) + j);
    } else {
      hide Value, Shape, Base;
      SliceOfSuffix(base, entries[last].digest.bytes, i, j);
    }
  }

  lemma SliceOfPrefix(s: Payload, t: Payload, i: nat, j: nat)
    requires i <= j <= |s|
    ensures (s + t)[i..j] == s[i..j]
  {
  }

  lemma SliceOfSuffix(s: Payload, t: Payload, i: nat, j: nat)
    requires i <= j <= |t|
    ensures (s + t)[|s| + i..|s| + j] == t[i..j]
  {
  }

  /** `out` is the value from `start` up to `position`. */
  predicate IsSlice(out: Payload, entries: seq<Entry>, start: nat, position: nat) {
    start <= position <= |Value(entries)| && out == Value(entries)[start..position]
  }

  /** Appending a chunk's slice at the drain point extends the slice of the value. */
  lemma SliceExtends(out: Payload, entries: seq<Entry>, start: nat, k: nat, i: nat, j: nat)
    requires Shape(entries) && k < |entries| && i <= j <= entries[k].len
    requires IsSlice(out, entries, start, Base(k) + i)
    ensures j <= |entries[k].digest.bytes|
    ensures IsSlice(out + entries[k].digest.bytes[i..j], entries, start, Base(k) + j)
  {
    ChunkSlice(entries, k, i, j);
    hide Base, Value;
    ServedSlice(Value(entries), start, Base(k) + i, Base(k) + j);
  }

  // ---- Opening a window --------------------------------------------------------------

  /** No range means all of the value; a range must lie within it. */
  function WindowOf(logicalLen: nat, range: Option<(nat, nat)>): Option<(nat, nat)> {
    match range
    case None => Some((0, logicalLen))
    case Some((start, end)) => if start > end || end > logicalLen then None else range
  }

  datatype Download = Object(bytes: Payload) | NotFound | Down

  /** One fetch's completion, as the executor delivers it. */
  datatype Arrival = Arrival(ordinal: nat, got: Download)

  /** Full verification: the recorded length and digest. */
  predicate Checks(e: Entry, got: Download) {
    got.Object? && |got.bytes| == e.len && ChunkSha(got.bytes) == e.digest
  }

  /** How completions settle a poll that needs a chunk not yet at hand. */
  datatype Settled = Serves | AllIn | Waits | Fails(ordinal: nat)

  /** The needed chunk arrives, or all fetches complete without it, or none is left to wait for, or one fails. */
  function Settle(entries: seq<Entry>, flight: set<nat>, need: nat, arrivals: seq<Arrival>): Settled
    requires forall k :: k in flight ==> k < |entries|
    decreases |arrivals|
  {
    if flight == {} then AllIn
    else if arrivals == [] then Waits
    else
      var a := arrivals[0];
      if a.ordinal !in flight then Settle(entries, flight, need, arrivals[1..])
      else if !Checks(entries[a.ordinal], a.got) then Fails(a.ordinal)
      else if a.ordinal == need then Serves
      else Settle(entries, flight - {a.ordinal}, need, arrivals[1..])
  }

  lemma NothingLeft(entries: seq<Entry>, need: nat, arrivals: seq<Arrival>)
    ensures Settle(entries, {}, need, arrivals) == AllIn
  {
  }

  /** One arrival further: the answer is known, or it is that of the rest. */
  lemma SettleStep(entries: seq<Entry>, flight: set<nat>, need: nat, arrivals: seq<Arrival>)
    requires (forall k :: k in flight ==> k < |entries|) && flight != {}
    ensures arrivals == [] ==> Settle(entries, flight, need, arrivals) == Waits
    ensures arrivals != [] ==>
      var a := arrivals[0];
      Settle(entries, flight, need, arrivals) ==
        if a.ordinal !in flight then Settle(entries, flight, need, arrivals[1..])
        else if !Checks(entries[a.ordinal], a.got) then Fails(a.ordinal)
        else if a.ordinal == need then Serves
        else Settle(entries, flight - {a.ordinal}, need, arrivals[1..])
  {
  }

  /** A needed chunk that is in flight cannot be passed over. */
  lemma {:induction false} NeedIsAwaited(entries: seq<Entry>, flight: set<nat>, need: nat, arrivals: seq<Arrival>)
    requires (forall k :: k in flight ==> k < |entries|) && need in flight
    ensures !Settle(entries, flight, need, arrivals).AllIn?
    decreases |arrivals|
  {
    if arrivals != [] {
      var a := arrivals[0];
      if a.ordinal != need {
        NeedIsAwaited(entries, flight - {a.ordinal}, need, arrivals[1..]);
        NeedIsAwaited(entries, flight, need, arrivals[1..]);
      }
    }
  }

  /** Arrival `j` is the first that speaks of fetch `k`. */
  predicate First(arrivals: seq<Arrival>, j: nat, k: nat) {
    j < |arrivals| && arrivals[j].ordinal == k && forall i :: 0 <= i < j ==> arrivals[i].ordinal != k
  }

  /** The first completion of fetch `k` verifies. */
  ghost predicate Verifies(entries: seq<Entry>, arrivals: seq<Arrival>, k: nat)
    requires k < |entries|
  {
    exists j: nat :: First(arrivals, j, k) && Checks(entries[k], arrivals[j].got)
  }

  /** Every fetch of the set completes, and verifies. */
  ghost predicate AllVerify(entries: seq<Entry>, flight: set<nat>, arrivals: seq<Arrival>)
    requires forall k :: k in flight ==> k < |entries|
  {
    forall k :: k in flight ==> Verifies(entries, arrivals, k)
  }

  /** Without the needed chunk, everything comes in exactly when every fetch completes and verifies. */
  lemma {:induction false} AllInIff(entries: seq<Entry>, flight: set<nat>, need: nat, arrivals: seq<Arrival>)
    requires (forall k :: k in flight ==> k < |entries|) && need !in flight
    ensures Settle(entries, flight, need, arrivals).AllIn? <==> AllVerify(entries, flight, arrivals)
    decreases |arrivals|
  {
    hide Verifies, Checks;
    if flight == {} {
    } else if arrivals == [] {
      var k :| k in flight;
      NoneVerifies(entries, k);
    } else {
      var left := flight - {arrivals[0].ordinal};
      AllInIff(entries, left, need, arrivals[1..]);
      forall k | k in flight { VerifiesStep(entries, arrivals, k); }
      assert arrivals[0].ordinal !in flight ==> left == flight;
    }
  }

  lemma NoneVerifies(entries: seq<Entry>, k: nat)
    requires k < |entries|
    ensures !Verifies(entries, [], k)
  {
  }

  lemma VerifiesStep(entries: seq<Entry>, arrivals: seq<Arrival>, k: nat)
    requires k < |entries| && arrivals != []
    ensures Verifies(entries, arrivals, k) <==>
      if arrivals[0].ordinal == k then Checks(entries[k], arrivals[0].got) else Verifies(entries, arrivals[1..], k)
  {
    hide Checks;
    if arrivals[0].ordinal == k {
      assert First(arrivals, 0, k);
      assert forall j: nat :: First(arrivals, j, k) ==> j == 0;
    } else {
      if j: nat :| First(arrivals, j, k) && Checks(entries[k], arrivals[j].got) {
        assert First(arrivals[1..], j - 1, k) && arrivals[1..][j - 1] == arrivals[j];
      }
      if j: nat :| First(arrivals[1..], j, k) && Checks(entries[k], arrivals[1..][j].got) {
        assert First(arrivals, j + 1, k) && arrivals[1..][j] == arrivals[j + 1];
      }
    }
  }

  datatype Polled = Yielded(bytes: Payload) | Eof | Pending | IoError

  /** A chunk being drained, and the offset reached in it. */
  datatype Cursor = Cursor(bytes: Payload, offset: nat)

  class Reader {
    const entries: seq<Entry>
    const start: nat
    const end: nat
    const firstFetch: nat
    const lastFetch: nat
    var position: nat
    var nextFetch: nat
    var inFlight: set<nat>
    var ready: map<nat, Payload>
    var current: Option<Cursor>
    var currentOrdinal: nat
    ghost var yielded: Payload
    ghost var failed: set<nat>     // ordinals whose fetch was reported as an error

    ghost predicate Fixed() {
      && Shape(entries) && start <= end <= |Value(entries)|
      && firstFetch == FirstChunk(start)
      && lastFetch == PastChunk(end) <= |entries|
    }

    /** What was yielded is the value's own slice, and the drain point names its chunk. */
    ghost predicate Drained()
      reads this`position, this`yielded, this`currentOrdinal, this`current, this`nextFetch
    {
      && start <= position <= end && IsSlice(yielded, entries, start, position)
      && firstFetch <= currentOrdinal
      && (position < end ==>
            && Base(currentOrdinal) <= position < Base(currentOrdinal + 1)
            && currentOrdinal < lastFetch && currentOrdinal < |entries| && currentOrdinal <= nextFetch <= lastFetch)
      && (current.Some? && position < end ==>
            && currentOrdinal < nextFetch
            && current.value.bytes == entries[currentOrdinal].digest.bytes
            && current.value.offset < |current.value.bytes|
            && Base(currentOrdinal) + current.value.offset == position)
    }

    ghost predicate Queues(low: nat)
      reads this`nextFetch, this`ready, this`inFlight
    {
      && (start < end ==> nextFetch <= lastFetch)
      && (forall k :: k in ready ==> k < nextFetch && k < |entries| && ready[k] == entries[k].digest.bytes)
      && (forall k :: k in inFlight ==> low <= k < nextFetch && k < |entries| && k !in ready)
      && |inFlight| <= MAX_IN_FLIGHT
    }

    /** The first chunk that is neither behind nor being drained. */
    function NextNeeded(): nat
      reads this`current, this`currentOrdinal
    {
      if current.Some? then currentOrdinal + 1 else currentOrdinal
    }

    /** Every fetched chunk from `low` on is waiting, in flight, or was reported as failed. */
    ghost predicate Ledger(low: nat)
      reads this`nextFetch, this`ready, this`inFlight, this`failed
    {
      forall k :: low <= k < nextFetch ==> k in ready || k in inFlight || k in failed
    }

    /** A failed fetch is neither repeated nor waited for. */
    ghost predicate Reported()
      reads this`nextFetch, this`ready, this`inFlight, this`failed
    {
      forall k :: k in failed ==> k < nextFetch && k !in inFlight && k !in ready
    }

    ghost predicate Valid() reads this {
      Fixed() && Drained() && Queues(NextNeeded()) && Ledger(NextNeeded()) && Reported()
    }

    /** The next byte has arrived already. */
    predicate AtHand() reads this`current, this`currentOrdinal, this`ready { current.Some? || currentOrdinal in ready }

    /** What is in flight once the prefetch window is full. */
    ghost function Prefetched(): (flight: set<nat>)
      requires Fixed() && Queues(NextNeeded())
      reads this
      ensures forall k :: k in flight ==> k < |entries|
    {
      Extended(inFlight, nextFetch, Least(lastFetch, nextFetch + (MAX_IN_FLIGHT - |inFlight|)))
    }

    constructor (entries: seq<Entry>, start: nat, end: nat)
      requires Shape(entries) && start <= end <= |Value(entries)|
      ensures Valid() && this.entries == entries && this.start == start && this.end == end
      ensures position == start && yielded == [] && failed == {}
      ensures nextFetch == currentOrdinal == firstFetch && inFlight == {} && ready == map[] && current.None?
    {
      ValueLength(entries);
      assert entries != [] ==> ShapedAt(entries, |entries| - 1);
      ChunksAround(start, end, FirstChunk(start));
      ChunksAround(start, end, |entries|);
      if entries != [] { Bases(|entries|); }
      hide Base, PastChunk, FirstChunk;
      this.entries, this.start, this.end, position := entries, start, end, start;
      firstFetch := FirstChunk(start);
      lastFetch := Least(PastChunk(end), |entries|);
      nextFetch, currentOrdinal := FirstChunk(start), FirstChunk(start);
      inFlight, ready, current, yielded, failed := {}, map[], None, [], {};
    }

    /** Start the fetch of the next ordinal. */
    method StartFetch()
      requires Valid() && position < end && nextFetch < lastFetch && |inFlight| < MAX_IN_FLIGHT
      modifies this`nextFetch, this`inFlight
      ensures Valid() && nextFetch == old(nextFetch) + 1
      ensures inFlight == old(inFlight) + {old(nextFetch)} && |inFlight| == |old(inFlight)| + 1
    {
      assert lastFetch <= |entries|;
      hide Fixed, Base, IsSlice;
      inFlight := inFlight + {nextFetch};
      nextFetch := nextFetch + 1;
    }

    /** Keep the prefetch window full: ordinals in order, at most four in flight. */
    method Prefetch()
      requires Valid() && position < end
      modifies this`nextFetch, this`inFlight
      ensures Valid() && currentOrdinal < nextFetch && inFlight == old(Prefetched())
    {
      ghost var first, was, flight := nextFetch, inFlight, Prefetched();
      assert flight == Extended(was, first, Least(lastFetch, first + (MAX_IN_FLIGHT - |was|)));
      InRange();
      hide Valid, Fixed, Queues, Prefetched, Extended;
      ExtendedStep(was, first, first);
      while nextFetch < lastFetch && |inFlight| < MAX_IN_FLIGHT
        invariant Valid() && first <= nextFetch <= lastFetch
        invariant |inFlight| == |was| + (nextFetch - first) <= MAX_IN_FLIGHT
        invariant inFlight == Extended(was, first, nextFetch)
        decreases lastFetch - nextFetch
      {
        ExtendedStep(was, first, nextFetch);
        StartFetch();
      }
      InRange();
    }

    lemma InRange()
      requires Valid() && position < end
      ensures nextFetch <= lastFetch && |inFlight| <= MAX_IN_FLIGHT
      ensures nextFetch == lastFetch || |inFlight| == MAX_IN_FLIGHT ==> currentOrdinal < nextFetch
    {
      EmptyRange(inFlight, NextNeeded(), nextFetch);
      hide Fixed, Base, IsSlice;
    }

    /** The needed chunk is not being drained: it is waiting, in flight, or was reported as failed. */
    ghost predicate Needing() reads this {
      && Fixed() && Drained() && Queues(currentOrdinal) && Ledger(currentOrdinal) && Reported()
      && current.None? && position < end && currentOrdinal < nextFetch
    }

    lemma NeedingMeans()
      requires Needing()
      ensures Valid() && (forall k :: k in inFlight ==> k < |entries|)
      ensures currentOrdinal in ready || currentOrdinal in inFlight || currentOrdinal in failed
    {
    }

    /** As many bytes as the buffer, the chunk and the window allow. */
    ghost predicate Filled(out: Payload, room: nat, from: nat, k: nat) {
      && k < |entries| && from <= end && from <= Base(k) + entries[k].len
      && |out| == Least(room, Least(Base(k) + entries[k].len, end) - from)
    }

    /** Hand out the next bytes of chunk `currentOrdinal`, from `offset` on. */
    method Serve(bytes: Payload, offset: nat, room: nat) returns (out: Payload)
      requires Fixed() && Drained() && Queues(currentOrdinal + 1) && Ledger(currentOrdinal + 1) && Reported()
      requires position < end && room > 0 && current.None?
      requires currentOrdinal < nextFetch && bytes == entries[currentOrdinal].digest.bytes && offset < |bytes|
      requires Base(currentOrdinal) + offset == position
      modifies this`position, this`current, this`currentOrdinal, this`yielded
      ensures Valid() && 0 < |out| <= room
      ensures yielded == old(yielded) + out && position == old(position) + |out|
      ensures Filled(out, room, old(position), old(currentOrdinal))
    {
      hide Base, Value, Shape, PastChunk, FirstChunk, IsSlice;
      var n := |bytes| - offset;
      if room < n { n := room; }
      if end - position < n { n := end - position; }
      out := bytes[offset..offset + n];
      ChunkBase(entries, currentOrdinal);
      SliceExtends(yielded, entries, start, currentOrdinal, offset, offset + n);
      Advance(bytes, offset, n, out);
    }

    /** Record that `n` bytes of the current chunk went out. */
    method Advance(bytes: Payload, offset: nat, n: nat, ghost out: Payload)
      requires Fixed() && Drained() && Queues(currentOrdinal + 1) && Ledger(currentOrdinal + 1) && Reported()
      requires position < end && current.None?
      requires currentOrdinal < nextFetch && bytes == entries[currentOrdinal].digest.bytes
      requires Base(currentOrdinal) + offset == position
      requires 0 < n && offset + n <= |bytes| && position + n <= end
      requires IsSlice(yielded + out, entries, start, position + n)
      modifies this`position, this`current, this`currentOrdinal, this`yielded
      ensures Valid() && yielded == old(yielded) + out && position == old(position) + n
    {
      hide Base, PastChunk, FirstChunk, Shape, Value, IsSlice, Queues, Ledger, Reported;
      NextChunk(entries, currentOrdinal, position + n, end);
      ChunksAround(0, end, currentOrdinal + 1);
      Bases(currentOrdinal + 1);
      ChunkBase(entries, currentOrdinal);
      assert offset + n == |bytes| ==> position + n == Base(currentOrdinal + 1) || position + n == end;
      hide Fixed;
      yielded := yielded + out;
      position := position + n;
      if offset + n < |bytes| {
        current := Some(Cursor(bytes, offset + n));
      } else {
        currentOrdinal := currentOrdinal + 1;
      }
    }

    /**
     One poll.  It never yields a byte out of place, waits only while something is in flight, and its
     outcome is determined.  The end is claimed early exactly when the needed chunk was lost to an error
     already reported and everything else in flight comes in; so never before an error was reported.
    */
    method PollRead(room: nat, arrivals: seq<Arrival>) returns (r: Polled)
      requires Valid()
      modifies this
      ensures Valid() && old(failed) <= failed
      ensures r.Yielded? ==>
        && |r.bytes| <= room && (room > 0 ==> 0 < |r.bytes|)
        && yielded == old(yielded) + r.bytes && position == old(position) + |r.bytes|
        && (room > 0 ==> Filled(r.bytes, room, old(position), old(currentOrdinal)))
      ensures !r.Yielded? ==>
        position == old(position) && current == old(current) && currentOrdinal == old(currentOrdinal)
      ensures r.Pending? ==> inFlight != {} && (currentOrdinal in inFlight || currentOrdinal in failed)
      ensures !r.IoError? ==> failed == old(failed)
      ensures old(position) == end ==> r.Eof?
      ensures old(position) < end && room == 0 ==> r == Yielded([])
      ensures old(position) < end && room > 0 && old(AtHand()) ==> r.Yielded?
      ensures old(position) < end && room > 0 && !old(AtHand()) ==>
        match Settle(entries, old(Prefetched()), old(currentOrdinal), arrivals)
        case Serves => r.Yielded?
        case AllIn => r.Eof?
        case Waits => r.Pending?
        case Fails(k) => r.IoError? && failed == old(failed) + {k}
      ensures r.Eof? && position < end <==>
        && room > 0 && old(position < end && !AtHand() && currentOrdinal in failed)
        && AllVerify(entries, old(Prefetched()), arrivals)
      ensures r.Eof? && position < end ==>
        currentOrdinal in failed && currentOrdinal !in ready && inFlight == {} && current.None?
      ensures old(failed) == {} ==> (r.Eof? <==> old(position) == end)
    {
      if position >= end { return Eof; }
      if room == 0 { return Yielded([]); }
      ghost var flight := Prefetched();
      ghost var failing := currentOrdinal in failed;
      Prefetch();
      if current.Some? {
        r := DrainCurrent(room);
        return;
      }
      hide Fixed, Drained, Queues, Ledger, Checks, AllVerify, Settle, Prefetched, First;
      NeedingMeans();
      if currentOrdinal in ready {
        var out := ServeReady(room);
        return Yielded(out);
      }
      if currentOrdinal in inFlight {
        NeedIsAwaited(entries, flight, currentOrdinal, arrivals);
      } else {
        AllInIff(entries, flight, currentOrdinal, arrivals);
      }
      assert failing <==> currentOrdinal !in inFlight;
      r := Await(room, arrivals);
    }

    /** Go on with the chunk being drained. */
    method DrainCurrent(room: nat) returns (r: Polled)
      requires Valid() && position < end && room > 0 && current.Some?
      modifies this`position, this`current, this`currentOrdinal, this`yielded
      ensures Valid() && r.Yielded? && 0 < |r.bytes| <= room
      ensures yielded == old(yielded) + r.bytes && position == old(position) + |r.bytes|
      ensures Filled(r.bytes, room, old(position), old(currentOrdinal))
    {
      hide Fixed, Base, IsSlice;
      var cursor := current.value;
      current := None;
      var out := Serve(cursor.bytes, cursor.offset, room);
      r := Yielded(out);
    }

    /** Take completions until the needed chunk is there, or nothing is left to wait for. */
    method Await(room: nat, arrivals: seq<Arrival>) returns (r: Polled)
      requires Needing() && room > 0 && currentOrdinal !in ready && current.None?
      requires forall k :: k in inFlight ==> k < |entries|
      modifies this
      ensures Valid() && old(failed) <= failed
      ensures r.Yielded? ==>
        && 0 < |r.bytes| <= room && yielded == old(yielded) + r.bytes && position == old(position) + |r.bytes|
        && Filled(r.bytes, room, old(position), old(currentOrdinal))
      ensures !r.Yielded? ==>
        position == old(position) && current == old(current) && currentOrdinal == old(currentOrdinal)
      ensures r.Pending? ==> inFlight != {} && (currentOrdinal in inFlight || currentOrdinal in failed)
      ensures !r.IoError? ==> failed == old(failed)
      ensures r.Eof? ==> inFlight == {} && currentOrdinal !in ready && current.None?
      ensures match Settle(entries, old(inFlight), old(currentOrdinal), arrivals)
              case Serves => r.Yielded?
              case AllIn => r.Eof?
              case Waits => r.Pending?
              case Fails(k) => r.IoError? && failed == old(failed) + {k}
    {
      hide Valid, Needing, Checks, Settle;
      var queue := arrivals;
      while true
        invariant Needing() && current == old(current) && currentOrdinal == old(currentOrdinal)
        invariant position == old(position) && yielded == old(yielded) && failed == old(failed)
        invariant forall k :: k in inFlight ==> k < |entries|
        invariant if currentOrdinal in ready then Settle(entries, old(inFlight), currentOrdinal, arrivals).Serves?
                  else (Settle(entries, inFlight, currentOrdinal, queue) ==
                        Settle(entries, old(inFlight), currentOrdinal, arrivals))
        decreases |inFlight|, |queue|
      {
        if currentOrdinal in ready {
          var out := ServeReady(room);
          return Yielded(out);
        }
        NeedingMeans();
        if inFlight == {} {
          NothingLeft(entries, currentOrdinal, queue);
          return Eof;
        }
        SettleStep(entries, inFlight, currentOrdinal, queue);
        if queue == [] { return Pending; }
        var a := queue[0];
        queue := queue[1..];
        if a.ordinal in inFlight {
          var ok := Receive(a);
          NeedingMeans();
          if !ok { return IoError; }
        }
      }
    }

    /** The chunk at the drain point has arrived: start draining it, inside it for the first of a window. */
    method ServeReady(room: nat) returns (out: Payload)
      requires Needing() && room > 0 && currentOrdinal in ready
      modifies this`position, this`current, this`currentOrdinal, this`yielded, this`ready
      ensures Valid() && 0 < |out| <= room
      ensures yielded == old(yielded) + out && position == old(position) + |out|
      ensures Filled(out, room, old(position), old(currentOrdinal))
    {
      WithinChunk(entries, currentOrdinal, position);
      hide Base, Value, Shape, PastChunk, FirstChunk;
      var bytes := ready[currentOrdinal];
      ready := ready - {currentOrdinal};
      var base := Base(currentOrdinal);
      assert base < end;
      out := Serve(bytes, position - base, room);
    }

    /** A completed fetch: verified and set aside, or reported. */
    method Receive(a: Arrival) returns (ok: bool)
      requires Needing() && a.ordinal in inFlight
      modifies this`inFlight, this`ready, this`failed
      ensures Needing() && |inFlight| < |old(inFlight)|
      ensures ok == Checks(entries[a.ordinal], a.got) && inFlight == old(inFlight) - {a.ordinal}
      ensures failed == if ok then old(failed) else old(failed) + {a.ordinal}
      ensures currentOrdinal in ready <==> old(currentOrdinal in ready) || (ok && a.ordinal == currentOrdinal)
    {
      hide Fixed, Drained;
      inFlight := inFlight - {a.ordinal};
      ok := Checks(entries[a.ordinal], a.got);
      if ok {
        ready := ready[a.ordinal := a.got.bytes];
      } else {
        failed := failed + {a.ordinal};
      }
    }
  }

  /** A chunk read to its end, short of the window's end, is full; the next byte opens the next chunk. */
  lemma NextChunk(entries: seq<Entry>, k: nat, position: nat, end: nat)
    requires Shape(entries) && k < |entries| && position <= end <= |Value(entries)|
    ensures position == Base(k) + entries[k].len && position < end ==> entries[k].len == CHUNK_BYTES
  {
    ChunkBase(entries, k);
    ValueLength(entries);
  }

  lemma WithinChunk(entries: seq<Entry>, k: nat, position: nat)
    requires Shape(entries) && k < |entries| && Base(k) <= position < Base(k + 1) && position < |Value(entries)|
    ensures position - Base(k) < entries[k].len == |entries[k].digest.bytes|
  {
    ChunkBase(entries, k);
    ValueLength(entries);
    Bases(k);
  }

  lemma ServedSlice(v: Payload, i: nat, j: nat, k: nat)
    requires i <= j <= k <= |v|
    ensures v[i..j] + v[j..k] == v[i..k]
  {
  }

  /** Open a window of a chunked value, or refuse a range that does not lie within it. */
  method OpenWindow(entries: seq<Entry>, range: Option<(nat, nat)>) returns (reader: Reader?)
    requires Shape(entries)
    ensures reader == null <==> range.Some? && (range.value.0 > range.value.1 || range.value.1 > |Value(entries)|)
    ensures reader != null ==>
      && fresh(reader) && reader.Valid() && reader.entries == entries && reader.yielded == [] && reader.failed == {}
      && reader.start == (if range.Some? then range.value.0 else 0)
      && reader.end == (if range.Some? then range.value.1 else |Value(entries)|)
  {
    var window := WindowOf(|Value(entries)|, range);
    reader := null;
    if window.Some? {
      reader := new Reader(entries, window.value.0, window.value.1);
    }
  }

  /**
   Every one-chunk window ends early for a caller that polls on after its fetch failed: the error is
   reported once, the fetch is not repeated, and the next poll says that the window is exhausted.
  */
  method FailsThenEnds(entries: seq<Entry>, start: nat, end: nat)
      returns (reader: Reader, first: Polled, second: Polled)
    requires Shape(entries) && start < end <= |Value(entries)| && FirstChunk(start) + 1 == PastChunk(end)
    ensures fresh(reader) && reader.Valid() && reader.start == start && reader.end == end
    ensures first == IoError && second == Eof && reader.position == start && reader.yielded == []
  {
    reader := new Reader(entries, start, end);
    var k := FirstChunk(start);
    hide Base, Value, Shape, PastChunk, FirstChunk, IsSlice, First;
    OnlyFetch(entries, reader.Prefetched(), k, [Arrival(k, NotFound)]);
    first := reader.PollRead(1, [Arrival(k, NotFound)]);
    assert reader.Prefetched() == {};
    second := reader.PollRead(1, []);
  }

  lemma OnlyFetch(entries: seq<Entry>, flight: set<nat>, k: nat, arrivals: seq<Arrival>)
    requires flight == {k} && k < |entries| && arrivals == [Arrival(k, NotFound)]
    ensures Settle(entries, flight, k, arrivals) == Fails(k)
  {
  }

  /** The reader of an inline value: the payload is at hand, so no poll waits or fails. */
  class InlineReader {
    const payload: Payload
    const start: nat
    const end: nat
    var position: nat
    ghost var yielded: Payload

    ghost predicate Valid() reads this {
      start <= position <= end <= |payload| && yielded == payload[start..position]
    }

    constructor (payload: Payload, start: nat, end: nat)
      requires start <= end <= |payload|
      ensures Valid() && this.payload == payload && this.start == start && this.end == end && yielded == []
    {
      this.payload, this.start, this.end, position, yielded := payload, start, end, start, [];
    }

    method PollRead(room: nat) returns (r: Polled)
      requires Valid()
      modifies this
      ensures Valid()
      ensures r.Eof? <==> old(position) == end
      ensures r.Eof? ==> position == old(position)
      ensures !r.Eof? ==>
        r.Yielded? && yielded == old(yielded) + r.bytes && |r.bytes| == Least(room, end - old(position))
    {
      if position >= end { return Eof; }
      var out := payload[position..position + Least(room, end - position)];
      ServedSlice(payload, start, position, position + |out|);
      yielded := yielded + out;
      position := position + |out|;
      r := Yielded(out);
    }
  }

  /** Exactly the chunks that meet a non-empty window are fetched. */
  lemma FetchedChunksMeetWindow(start: nat, end: nat, k: nat)
    requires start < end
    ensures FirstChunk(start) <= k < PastChunk(end) <==> Base(k) < end && start < Base(k + 1)
  {
  }
}
