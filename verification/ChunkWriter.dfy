/** The streaming writer, and the whole-value staging it must agree with. */
module ChunkWriter {
  import opened Basics
  import opened ManifestCodec

  const MAX_IN_FLIGHT: nat := 4

  // ---- What both build -----------------------------------------------------------

  /** Consecutive pieces of 16 MiB; only the last may be shorter, and none is empty. */
  function Pieces(value: Bytes): (chunks: seq<Bytes>)
    ensures forall i :: 0 <= i < |chunks| ==> 0 < |chunks[i]| <= CHUNK_BYTES
    decreases |value|
  {
    if value == [] then []
    else if |value| <= CHUNK_BYTES then [value]
    else [value[..CHUNK_BYTES]] + Pieces(value[CHUNK_BYTES..])
  }

  function HashEntry(sha: Hash, chunk: Bytes): Entry
    requires |chunk| <= CHUNK_BYTES
  {
    Entry(|chunk|, sha(chunk))
  }

  function TableOf(sha: Hash, chunks: seq<Bytes>): (entries: seq<Entry>)
    requires forall i :: 0 <= i < |chunks| ==> |chunks[i]| <= CHUNK_BYTES
    ensures |entries| == |chunks|
  {
    seq(|chunks|, i requires 0 <= i < |chunks| => HashEntry(sha, chunks[i]))
  }

  /** The manifest of a value at a generation. */
  function Staged(sha: Hash, era: U64Int, version: U64Int, commit: CommitId, value: Bytes): Manifest
    requires |value| <= MAX_LOGICAL_BYTES
  {
    var entries := TableOf(sha, Pieces(value));
    Manifest(era, version, commit, |value|, ValueRoot(sha, |value|, CHUNK_BYTES, entries), CHUNK_BYTES, entries)
  }

  // ---- What a manifest names ---------------------------------------------------------

  /** Byte `i * 16 MiB` of the value is where its piece `i` starts. */
  function Start(i: nat): nat { 16_777_216 * i }

  function CutEnd(value: Bytes, i: nat): nat {
    if Start(i + 1) <= |value| then Start(i + 1) else |value|
  }

  /** The manifest is of this generation, and its entries name the value's consecutive 16 MiB slices, all of them. */
  ghost predicate Names(sha: Hash, m: Manifest, era: nat, version: nat, commit: CommitId, value: Bytes) {
    && m.incarnation == era && m.version == version && m.commit == commit
    && m.logicalLen == |value| && m.chunkBytes == CHUNK_BYTES
    && (forall i :: 0 <= i < |m.entries| ==> NamesSlice(sha, m.entries[i], value, i))
    && |value| <= Start(|m.entries|) < |value| + CHUNK_BYTES
  }

  ghost predicate NamesSlice(sha: Hash, e: Entry, value: Bytes, i: nat) {
    && Start(i) < CutEnd(value, i)
    && e.len == CutEnd(value, i) - Start(i) && e.digest == sha(value[Start(i)..CutEnd(value, i)])
  }

  lemma {:induction false} PieceAt(value: Bytes, i: nat)
    requires i < |Pieces(value)|
    ensures Start(i) < CutEnd(value, i) && Pieces(value)[i] == value[Start(i)..CutEnd(value, i)]
    decreases i
  {
    if i > 0 {
      PieceAt(value[CHUNK_BYTES..], i - 1);
    }
  }

  lemma {:induction false} PieceCount(value: Bytes)
    ensures |value| <= Start(|Pieces(value)|) < |value| + CHUNK_BYTES
    decreases |value|
  {
    if |value| > CHUNK_BYTES {
      PieceCount(value[CHUNK_BYTES..]);
    }
  }

  lemma StagedNames(sha: Hash, era: U64Int, version: U64Int, commit: CommitId, value: Bytes)
    requires |value| <= MAX_LOGICAL_BYTES
    ensures Names(sha, Staged(sha, era, version, commit, value), era, version, commit, value)
  {
    PieceCount(value);
    hide Pieces, ValueRoot;
    forall i | 0 <= i < |Pieces(value)|
      ensures NamesSlice(sha, TableOf(sha, Pieces(value))[i], value, i)
    {
      PieceAt(value, i);
    }
  }

  function Joined(chunks: seq<Bytes>): Bytes {
    if chunks == [] then [] else Joined(chunks[..|chunks| - 1]) + chunks[|chunks| - 1]
  }

  /**
   Whatever chunks a reader was given, if each verifies against its entry then they concatenate to the
   very bytes that were written, unless the hash collides on one of them.
  */
  lemma VerifiedReadsBack(sha: Hash, m: Manifest, era: nat, version: nat, commit: CommitId, value: Bytes,
                          got: seq<Bytes>)
    requires Names(sha, m, era, version, commit, value) && |got| == |m.entries|
    requires forall i :: 0 <= i < |got| ==> |got[i]| == m.entries[i].len && sha(got[i]) == m.entries[i].digest
    requires forall i :: 0 <= i < |got| ==> !Collide(sha, got[i], value[Least(Start(i), |value|)..CutEnd(value, i)])
    ensures Joined(got) == value
  {
    forall i | 0 <= i < |got| ensures Start(i) <= CutEnd(value, i) && got[i] == value[Start(i)..CutEnd(value, i)] {
      assert NamesSlice(sha, m.entries[i], value, i);
    }
    JoinedSlices(value, got, |got|);
    assert got[..|got|] == got && value[..|value|] == value;
  }

  function Least(a: nat, b: nat): nat { if a <= b then a else b }

  lemma {:induction false} JoinedSlices(value: Bytes, got: seq<Bytes>, n: nat)
    requires n <= |got|
    requires forall i :: 0 <= i < n ==> Start(i) <= CutEnd(value, i) && got[i] == value[Start(i)..CutEnd(value, i)]
    ensures Joined(got[..n]) == value[..Least(Start(n), |value|)]
  {
    if n > 0 {
      JoinedSlices(value, got, n - 1);
      assert got[..n][..n - 1] == got[..n - 1];
      assert value[..Start(n - 1)] + value[Start(n - 1)..CutEnd(value, n - 1)] == value[..CutEnd(value, n - 1)];
    }
  }

  /** Cutting commutes with appending, at a chunk boundary. */
  lemma {:induction false} PiecesAppend(a: Bytes, b: Bytes)
    requires |a| % CHUNK_BYTES == 0
    ensures Pieces(a + b) == Pieces(a) + Pieces(b)
    decreases |a|
  {
    if a == [] {
      assert a + b == b;
    } else if |a| == CHUNK_BYTES {
      if b == [] {
        assert a + b == a;
      } else {
        assert (a + b)[..CHUNK_BYTES] == a && (a + b)[CHUNK_BYTES..] == b;
      }
    } else {
      PiecesAppend(a[CHUNK_BYTES..], b);
      assert (a + b)[..CHUNK_BYTES] == a[..CHUNK_BYTES];
      assert (a + b)[CHUNK_BYTES..] == a[CHUNK_BYTES..] + b;
    }
  }

  lemma SinglePiece(b: Bytes)
    requires 0 < |b| <= CHUNK_BYTES
    ensures Pieces(b) == [b]
  {
  }

  lemma {:induction false} PiecesShape(value: Bytes)
    ensures var n := |Pieces(value)|;
      && (n == 0 <==> value == [])
      && (forall i :: 0 <= i < n - 1 ==> |Pieces(value)[i]| == CHUNK_BYTES)
      && CHUNK_BYTES * (n - 1) < |value| + (if n == 0 then 1 else 0)
      && |value| <= CHUNK_BYTES * n
    decreases |value|
  {
    if |value| > CHUNK_BYTES {
      PiecesShape(value[CHUNK_BYTES..]);
    }
  }

  lemma {:induction false} TableTotal(sha: Hash, value: Bytes)
    ensures TotalLen(TableOf(sha, Pieces(value))) == |value|
    decreases |value|
  {
    var entries := TableOf(sha, Pieces(value));
    if |value| > CHUNK_BYTES {
      var rest := TableOf(sha, Pieces(value[CHUNK_BYTES..]));
      TableTotal(sha, value[CHUNK_BYTES..]);
      assert entries == [entries[0]] + rest;
      TotalCons(entries[0], rest);
    } else if value != [] {
      assert entries[..0] == [];
    }
  }

  lemma {:induction false} TotalCons(e: Entry, rest: seq<Entry>)
    ensures TotalLen([e] + rest) == e.len + TotalLen(rest)
  {
    var all := [e] + rest;
    if rest == [] {
      assert all[..0] == [];
    } else {
      TotalCons(e, rest[..|rest| - 1]);
      assert all[..|all| - 1] == [e] + rest[..|rest| - 1];
    }
  }

  /**
   The staged manifest of a value of more than one chunk is canonical, so the decoder accepts it; the
   chunk ceiling needs no check of its own.
  */
  lemma StagedIsCanonical(sha: Hash, era: U64Int, version: U64Int, commit: CommitId, value: Bytes)
    requires |value| <= MAX_LOGICAL_BYTES
    ensures |Pieces(value)| <= MAX_CHUNKS
    ensures CHUNK_BYTES < |value| <==> MIN_CHUNKS <= |Pieces(value)|
    ensures CHUNK_BYTES < |value| ==> Canonical(sha, Staged(sha, era, version, commit, value))
  {
    PiecesShape(value);
    TableTotal(sha, value);
    hide Pieces, TotalLen;
  }

  // ---- Whole-value staging ----------------------------------------------------------

  datatype WriteError = ValueTooLarge | UploadFailed | ChunkCountInvalid(count: nat) | SealedAlready

  datatype Sealed = Manifested(manifest: Manifest) | Refused(error: WriteError)

  /** `put` says which chunk uploads succeed; one failure ends the staging. */
  method StageChunks(sha: Hash, era: U64Int, version: U64Int, commit: CommitId, value: Bytes, put: nat -> bool)
    returns (r: Sealed)
    requires |value| <= MAX_LOGICAL_BYTES
    ensures r.Manifested? ==>
      r.manifest == Staged(sha, era, version, commit, value) && Names(sha, r.manifest, era, version, commit, value)
    ensures r.Refused? ==> r.error == UploadFailed
    ensures r.Manifested? <==> forall i :: 0 <= i < |Pieces(value)| ==> put(i)
  {
    var chunks := Pieces(value);
    for ordinal := 0 to |chunks|
      invariant forall i :: 0 <= i < ordinal ==> put(i)
    {
      if !put(ordinal) { return Refused(UploadFailed); }
    }
    var entries: seq<Entry> := [];
    for ordinal := 0 to |chunks|
      invariant entries == TableOf(sha, chunks[..ordinal])
    {
      entries := entries + [HashEntry(sha, chunks[ordinal])];
    }
    assert chunks[..|chunks|] == chunks;
    StagedNames(sha, era, version, commit, value);
    r := Manifested(Manifest(era, version, commit, |value|,
                             ValueRoot(sha, |value|, CHUNK_BYTES, entries), CHUNK_BYTES, entries));
  }

  // ---- The streaming writer ------------------------------------------------------------

  /** One upload's completion, as the executor delivers it. */
  datatype Upload = Upload(ordinal: nat, ok: bool)

  datatype Progress = Completed | Broke | Idle | Waiting

  datatype Polled = Consumed(n: nat) | Pending | Failed(error: WriteError)

  lemma SplitAppend(b: Bytes, piece: Bytes, cut: nat)
    requires cut <= |b|
    ensures (b + piece)[..cut] == b[..cut] && (b + piece)[cut..] == b[cut..] + piece
  {}

  lemma NextMultiple(n: nat)
    ensures n % CHUNK_BYTES == 0 ==> (n + CHUNK_BYTES) % CHUNK_BYTES == 0
  {}

  /** The first event of an upload in flight decides a poll; without one it waits. */
  ghost predicate PollsTo(events: seq<Upload>, flight: set<nat>, p: Progress, left: set<nat>, rest: seq<Upload>) {
    match p
    case Idle => flight == {}
    case Waiting => forall k :: 0 <= k < |events| ==> events[k].ordinal !in flight
    case _ =>
      exists n :: 0 <= n < |events| && rest == events[n + 1..]
        && events[n].ordinal in flight && events[n].ok == p.Completed? && left == flight - {events[n].ordinal}
        && forall k :: 0 <= k < n ==> events[k].ordinal !in flight
  }

  /** With four uploads in flight, the first event of one of them decides what a write may do. */
  ghost predicate PollDecides(events: seq<Upload>, flight: set<nat>, r: Polled) {
    match r
    case Consumed(_) => exists left, rest :: PollsTo(events, flight, Completed, left, rest)
    case Pending => PollsTo(events, flight, Waiting, flight, [])
    case Failed(error) => error == UploadFailed && exists left, rest :: PollsTo(events, flight, Broke, left, rest)
  }

  /** The first event that speaks of the upload says that it succeeded. */
  ghost predicate Succeeds(events: seq<Upload>, k: nat) {
    exists n :: 0 <= n < |events| && events[n] == Upload(k, true)
      && forall i :: 0 <= i < n ==> events[i].ordinal != k
  }

  /** Every upload in flight completes, and succeeds. */
  ghost predicate AllSucceed(events: seq<Upload>, flight: set<nat>) { forall k :: k in flight ==> Succeeds(events, k) }

  /** What a poll means for what is still to come. */
  lemma PollMeans(events: seq<Upload>, flight: set<nat>, p: Progress, left: set<nat>, rest: seq<Upload>)
    requires PollsTo(events, flight, p, left, rest) && flight != {}
    ensures p.Completed? ==> (AllSucceed(events, flight) <==> AllSucceed(rest, left))
    ensures p.Broke? || p.Waiting? ==> !AllSucceed(events, flight)
  {
    if p.Waiting? {
      var k :| k in flight;
      assert !Succeeds(events, k);
    } else {
      var n :| 0 <= n < |events| && rest == events[n + 1..] && events[n].ordinal in flight
        && events[n].ok == p.Completed? && left == flight - {events[n].ordinal}
        && forall k :: 0 <= k < n ==> events[k].ordinal !in flight;
      var done := events[n].ordinal;
      forall k | k in left ensures Succeeds(events, k) <==> Succeeds(rest, k) {
        LaterSucceeds(events, n, k);
      }
      FirstDecides(events, n);
      assert forall k :: k in flight <==> k in left || k == done;
    }
  }

  lemma FirstDecides(events: seq<Upload>, n: nat)
    requires n < |events| && forall k :: 0 <= k < n ==> events[k].ordinal != events[n].ordinal
    ensures Succeeds(events, events[n].ordinal) <==> events[n].ok
  {
    if events[n].ok { assert events[n] == Upload(events[n].ordinal, true); }
  }

  lemma LaterSucceeds(events: seq<Upload>, n: nat, k: nat)
    requires n < |events| && forall i :: 0 <= i <= n ==> events[i].ordinal != k
    ensures Succeeds(events, k) <==> Succeeds(events[n + 1..], k)
  {
    var rest := events[n + 1..];
    if Succeeds(rest, k) {
      var m :| 0 <= m < |rest| && rest[m] == Upload(k, true) && forall i :: 0 <= i < m ==> rest[i].ordinal != k;
      assert events[n + 1 + m] == Upload(k, true);
      forall i | 0 <= i < n + 1 + m ensures events[i].ordinal != k {
        if i > n { assert events[i] == rest[i - n - 1]; }
      }
    }
    if Succeeds(events, k) {
      var m :| 0 <= m < |events| && events[m] == Upload(k, true) && forall i :: 0 <= i < m ==> events[i].ordinal != k;
      assert rest[m - n - 1] == Upload(k, true);
    }
  }

  class Writer {
    const sha: Hash
    const era: U64Int
    const version: U64Int
    var buffer: Bytes
    var totalLen: nat
    var entries: seq<Entry>
    var inFlight: set<nat>
    var error: Option<WriteError>
    var done: bool
    ghost var written: Bytes         // everything accepted so far
    ghost var uploads: seq<Bytes>    // the chunk bodies handed to uploads, in ordinal order

    /** What has been uploaded is the whole pieces of what was accepted; the buffer is the rest. */
    ghost predicate Valid() reads this {
      && totalLen == |written| <= MAX_LOGICAL_BYTES
      && (error.Some? ==> error.value in {ValueTooLarge, UploadFailed})
      && |buffer| < CHUNK_BYTES && |buffer| <= |written|
      && buffer == written[|written| - |buffer|..]
      && (|written| - |buffer|) % CHUNK_BYTES == 0
      && uploads == Pieces(written[..|written| - |buffer|])
      && entries == TableOf(sha, uploads)
      && (forall k :: k in inFlight ==> k < |entries|) && |inFlight| <= MAX_IN_FLIGHT
    }

    constructor (sha: Hash, era: U64Int, version: U64Int)
      ensures Valid() && this.sha == sha && this.era == era && this.version == version
      ensures written == [] && !done && error.None? && inFlight == {}
    {
      this.sha, this.era, this.version := sha, era, version;
      buffer, totalLen, entries, inFlight, error, done := [], 0, [], {}, None, false;
      written, uploads := [], [];
    }

    /** The next completion among the uploads in flight, if the executor has one. */
    method PollNext(events: seq<Upload>) returns (p: Progress, rest: seq<Upload>)
      requires Valid()
      modifies this`inFlight
      ensures Valid() && inFlight <= old(inFlight)
      ensures p.Idle? <==> old(inFlight) == {}
      ensures p.Completed? || p.Broke? ==> |inFlight| == |old(inFlight)| - 1
      ensures p.Waiting? ==> inFlight == old(inFlight)
      ensures PollsTo(events, old(inFlight), p, inFlight, rest)
    {
      rest := events;
      if inFlight == {} { return Idle, rest; }
      while rest != []
        invariant |rest| <= |events| && rest == events[|events| - |rest|..]
        invariant forall k :: 0 <= k < |events| - |rest| ==> events[k].ordinal !in inFlight
      {
        var e := rest[0];
        rest := rest[1..];
        if e.ordinal in inFlight {
          assert e == events[|events| - |rest| - 1];
          inFlight := inFlight - {e.ordinal};
          return if e.ok then Completed else Broke, rest;
        }
      }
      p := Waiting;
    }

    /** Hash the full buffer as the next chunk and start its upload. */
    method StartChunkUpload(ghost accepted: Bytes)
      requires |buffer| == CHUNK_BYTES <= |accepted| && accepted[|accepted| - CHUNK_BYTES..] == buffer
      requires (|accepted| - CHUNK_BYTES) % CHUNK_BYTES == 0
      requires uploads == Pieces(accepted[..|accepted| - CHUNK_BYTES]) && entries == TableOf(sha, uploads)
      requires (forall k :: k in inFlight ==> k < |entries|) && |inFlight| < MAX_IN_FLIGHT
      modifies this`buffer, this`entries, this`inFlight, this`uploads
      ensures buffer == [] && uploads == Pieces(accepted) && entries == TableOf(sha, uploads)
      ensures inFlight == old(inFlight) + {|old(entries)|} && |inFlight| == |old(inFlight)| + 1
      ensures |entries| == |old(entries)| + 1
    {
      var bytes := buffer;
      buffer := [];
      entries := entries + [HashEntry(sha, bytes)];
      inFlight := inFlight + {|entries| - 1};
      PiecesAppend(accepted[..|accepted| - CHUNK_BYTES], bytes);
      assert accepted == accepted[..|accepted| - CHUNK_BYTES] + bytes;
      uploads := uploads + [bytes];
    }

    /**
     Accept a prefix of `buf`.  All of it, unless four uploads are then in flight; never a byte on an
     error or while pending; and at least one byte of a non-empty buffer otherwise.
    */
    method PollWrite(buf: Bytes, events: seq<Upload>) returns (r: Polled)
      requires Valid()
      modifies this
      ensures Valid() && done == old(done)
      ensures old(error).Some? ==> r == Failed(old(error).value)
      ensures r.Failed? ==> old(done) || (error.Some? && r.error == error.value)
      ensures !r.Failed? ==> error == old(error)
      ensures !r.Consumed? ==> written == old(written)
      ensures r.Consumed? ==> r.n <= |buf| && written == old(written) + buf[..r.n]
      ensures r.Consumed? && r.n < |buf| ==> 0 < r.n && |inFlight| == MAX_IN_FLIGHT
      ensures old(error).None? && !old(done) ==>
        (r == Failed(ValueTooLarge) <==> buf != [] && |old(written)| + |buf| > MAX_LOGICAL_BYTES)
      ensures r.Pending? ==>
        |old(inFlight)| == MAX_IN_FLIGHT && forall k :: 0 <= k < |events| ==> events[k].ordinal !in old(inFlight)
      ensures old(error).None? && !old(done) && buf != [] && |old(written)| + |buf| <= MAX_LOGICAL_BYTES ==>
        if |old(inFlight)| < MAX_IN_FLIGHT then r.Consumed?
        else PollDecides(events, old(inFlight), r)
      ensures old(error).None? && !old(done) && r == Failed(UploadFailed) ==>
        exists k :: 0 <= k < |events| && !events[k].ok && events[k].ordinal in old(inFlight)
    {
      if error.Some? { return Failed(error.value); }
      if done { return Failed(SealedAlready); }
      if buf == [] { return Consumed(0); }
      if totalLen + |buf| > MAX_LOGICAL_BYTES {
        error := Some(ValueTooLarge);
        return Failed(ValueTooLarge);
      }
      var room := MakeRoom(events);
      if room.Broke? {
        error := Some(UploadFailed);
        return Failed(UploadFailed);
      }
      if room.Waiting? { return Pending; }
      var consumed := Fill(buf);
      r := Consumed(consumed);
    }

    /** Back-pressure: take completions until fewer than four uploads are in flight. */
    method MakeRoom(events: seq<Upload>) returns (p: Progress)
      requires Valid()
      modifies this`inFlight
      ensures Valid() && inFlight <= old(inFlight)
      ensures |old(inFlight)| < MAX_IN_FLIGHT ==> p.Idle? && inFlight == old(inFlight)
      ensures |old(inFlight)| == MAX_IN_FLIGHT ==>
        !p.Idle? && exists rest :: PollsTo(events, old(inFlight), p, inFlight, rest)
      ensures p.Completed? ==> |inFlight| == MAX_IN_FLIGHT - 1
      ensures p.Waiting? ==> inFlight == old(inFlight)
    {
      hide Pieces, TableOf, PollsTo;
      p := Idle;
      var queue := events;
      while |inFlight| >= MAX_IN_FLIGHT
        invariant Valid() && inFlight <= old(inFlight) && !p.Waiting? && !p.Broke?
        invariant if p.Idle? then inFlight == old(inFlight) && queue == events
                  else |old(inFlight)| == MAX_IN_FLIGHT == |inFlight| + 1
                       && PollsTo(events, old(inFlight), p, inFlight, queue)
        decreases |inFlight|
      {
        p, queue := PollNext(queue);
        if p.Broke? || p.Waiting? { return; }
      }
    }

    /** The copy loop: cut whole chunks off until the input or the upload slots run out. */
    method Fill(buf: Bytes) returns (consumed: nat)
      requires Valid() && buf != [] && totalLen + |buf| <= MAX_LOGICAL_BYTES && |inFlight| < MAX_IN_FLIGHT
      modifies this`buffer, this`totalLen, this`entries, this`inFlight, this`written, this`uploads
      ensures Valid() && 0 < consumed <= |buf| && written == old(written) + buf[..consumed]
      ensures consumed < |buf| ==> |inFlight| == MAX_IN_FLIGHT
    {
      consumed := 0;
      while consumed < |buf|
        invariant Valid() && consumed <= |buf| && |inFlight| < MAX_IN_FLIGHT
        invariant totalLen == |old(written)| + consumed && written == old(written) + buf[..consumed]
        decreases |buf| - consumed
      {
        var room := CHUNK_BYTES - |buffer|;
        var take := if room < |buf| - consumed then room else |buf| - consumed;
        Copy(buf[consumed..consumed + take]);
        assert buf[..consumed] + buf[consumed..consumed + take] == buf[..consumed + take];
        consumed := consumed + take;
        if |inFlight| >= MAX_IN_FLIGHT { break; }
      }
    }

    /** Copy a piece that fits the buffer, and cut the buffer off if it is now a whole chunk. */
    method Copy(piece: Bytes)
      requires Valid() && piece != [] && |inFlight| < MAX_IN_FLIGHT
      requires |buffer| + |piece| <= CHUNK_BYTES && totalLen + |piece| <= MAX_LOGICAL_BYTES
      modifies this`buffer, this`totalLen, this`entries, this`inFlight, this`written, this`uploads
      ensures Valid() && written == old(written) + piece
    {
      hide Pieces, TableOf;
      ghost var accepted := written + piece;
      ghost var cut := |written| - |buffer|;
      SplitAppend(written, piece, cut);
      NextMultiple(cut);
      buffer := buffer + piece;
      totalLen := totalLen + |piece|;
      if |buffer| == CHUNK_BYTES {
        StartChunkUpload(accepted);
        assert accepted[..|accepted|] == accepted;
      }
      written := accepted;
    }

    /** Wait for every started upload. */
    method Drain(events: seq<Upload>) returns (ok: bool, rest: seq<Upload>)
      requires Valid()
      modifies this`inFlight
      ensures Valid() && (ok ==> inFlight == {}) && (ok <==> AllSucceed(events, old(inFlight)))
    {
      hide PollsTo, Succeeds;
      rest := events;
      while inFlight != {}
        invariant Valid() && inFlight <= old(inFlight)
        invariant AllSucceed(events, old(inFlight)) <==> AllSucceed(rest, inFlight)
        decreases |inFlight|
      {
        ghost var before, was := rest, inFlight;
        var p;
        p, rest := PollNext(rest);
        PollMeans(before, was, p, inFlight, rest);
        if !p.Completed? { return false, rest; }
      }
      ok := true;
    }

    /** Upload the final partial chunk, if there is one. */
    method FlushTail(last: bool) returns (ok: bool)
      requires Valid()
      modifies this`buffer, this`entries, this`uploads
      ensures uploads == Pieces(written) && entries == TableOf(sha, uploads)
      ensures ok <==> last || |old(buffer)| == 0
    {
      ghost var whole := written[..|written| - |buffer|];
      assert written == whole + buffer;
      PiecesAppend(whole, buffer);
      ok := true;
      if buffer == [] {
        assert whole == written;
      } else {
        SinglePiece(buffer);
        hide Pieces;
        entries := entries + [HashEntry(sha, buffer)];
        uploads := uploads + [buffer];
        ok := last;
        if ok { buffer := []; }
      }
    }

    /**
     However the input was sliced, the sealed manifest is the one that whole-value staging builds for
     the concatenated bytes, and it is canonical.
    */
    method Seal(commit: CommitId, events: seq<Upload>, last: bool) returns (r: Sealed)
      requires Valid() && !done
      modifies this
      ensures r.Manifested? ==>
        r.manifest == Staged(sha, era, version, commit, old(written)) && Canonical(sha, r.manifest)
      ensures r.Manifested? ==> Names(sha, r.manifest, era, version, commit, old(written))
      ensures r.Manifested? ==> done && uploads == Pieces(old(written)) && inFlight == {} && old(error).None?
      ensures r.Refused? && r.error.ChunkCountInvalid? ==> |old(written)| <= CHUNK_BYTES
      ensures old(error).Some? ==> r == Refused(old(error).value)
      ensures |old(written)| <= CHUNK_BYTES ==> r.Refused?
      ensures old(error).None? ==>
        (r.Manifested? <==> AllSucceed(events, old(inFlight)) && (last || |old(buffer)| == 0)
                            && |old(written)| > CHUNK_BYTES)
      ensures old(error).None? && r.Refused? ==>
        r.error == if AllSucceed(events, old(inFlight)) && (last || |old(buffer)| == 0)
                   then WriteError.ChunkCountInvalid(|Pieces(old(written))|) else UploadFailed
    {
      if error.Some? {
        r := Refused(error.value);
        error := None;
        return;
      }
      var drained, _ := Drain(events);
      if !drained { return Refused(UploadFailed); }
      var flushed := FlushTail(last);
      if !flushed { return Refused(UploadFailed); }
      StagedIsCanonical(sha, era, version, commit, written);
      StagedNames(sha, era, version, commit, written);
      hide Names, Pieces, TableOf, ValueRoot, Canonical, AllSucceed;
      done := true;
      var count := |entries|;
      if !(MIN_CHUNKS <= count <= MAX_CHUNKS) { return Refused(WriteError.ChunkCountInvalid(count)); }
      r := Manifested(Manifest(era, version, commit, totalLen,
                               ValueRoot(sha, totalLen, CHUNK_BYTES, entries), CHUNK_BYTES, entries));
    }
  }
}
