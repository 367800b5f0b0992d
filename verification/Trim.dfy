/**
 Certified trimming over one namespace: the floor is the greatest certificate, found by a paged walk in
 byte order, and the sweep below it collects only what the certificate covers.
*/
module Trim {
  import opened Basics
  import opened Keys
  import opened Listing
  import opened Deletes

  function CertPrefix(scope: Key): Key { if scope == "" then "trims/" else scope + "/trims/" }

  /** The bare segment, which sorts before every certificate. */
  function CertStart(scope: Key): Key { if scope == "" then "trims" else scope + "/trims" }

  /** The seq that a key with this prefix names, if it is seq-shaped. */
  function SeqOf(p: Key, k: Key): (r: Option<nat>)
    ensures r.Some? ==> r.value <= U64_MAX && k == p + SeqComponent(r.value)
  {
    if HasPrefix(k, p) then ParseSeq(k[|p|..]) else None
  }

  lemma SeqOfPrinted(p: Key, n: nat)
    requires n <= U64_MAX
    ensures SeqOf(p, p + SeqComponent(n)) == Some(n)
  {
    ParsePrinted(n);
    assert (p + SeqComponent(n))[|p|..] == SeqComponent(n);
  }

  ghost predicate IsFloor(keys: set<Key>, p: Key, floor: Option<nat>) {
    match floor
    case None => forall k :: k in keys ==> SeqOf(p, k).None?
    case Some(f) =>
      && f <= U64_MAX && p + SeqComponent(f) in keys
      && forall k :: k in keys && SeqOf(p, k).Some? ==> SeqOf(p, k).value <= f
  }

  // ---- What a sweep may collect ---------------------------------------------------------

  /** A key in the walked range that is not seq-shaped; the walk stops there. */
  ghost predicate Stray(keys: set<Key>, p: Key, y: Key) {
    y in keys && Past(p + SeqComponent(0), y) && SeqOf(p, y).None?
  }

  ghost predicate InRange(keys: set<Key>, p: Key, first: nat, k: Key) {
    k in keys && SeqOf(p, k).Some? && 1 <= SeqOf(p, k).value < first
  }

  /** In range, and reached by the walk. */
  ghost predicate Doomed(keys: set<Key>, p: Key, first: nat, k: Key) {
    InRange(keys, p, first, k) && forall y :: Stray(keys, p, y) ==> !Less(y, k)
  }

  lemma BlockPassed(p: Key, y: Key, k: Key)
    requires !HasPrefix(y, p) && !Less(y, p) && HasPrefix(k, p)
    ensures Less(k, y)
  {
    PrefixBlock(p, k, y);
    LessTotal(y, p);
  }

  datatype FloorRead = Floored(floor: Option<nat>) | InvalidIdentifier

  datatype Proposed = TrimState(firstRetained: nat, advanced: bool) | NotMonotone(certified: nat) | Unresolved

  datatype Swept = Report(examined: nat, deleted: nat, remaining: nat) | NotCertified | Inadmissible

  class Keyspace {
    var keys: set<Key>
    const pageLimit: nat

    constructor (keys: set<Key>, pageLimit: nat)
      ensures this.keys == keys && this.pageLimit == pageLimit
    {
      this.keys, this.pageLimit := keys, pageLimit;
    }

    /** One LIST page; a cursor must itself be a valid identifier. */
    method ListAfter(after: Key) returns (ok: bool, page: seq<Key>)
      ensures ok == ValidIdentifier(after)
      ensures ok ==> IsPage(keys, after, pageLimit, page)
    {
      ok, page := ValidIdentifier(after), [];
      if ok { page := Page(keys, after, pageLimit); }
    }

    /** Every key the walk may use as a cursor is a valid identifier. */
    ghost predicate Walkable(start: Key) reads this {
      ValidIdentifier(start) && forall k :: k in keys ==> ValidIdentifier(k)
    }

    /** The floor of a scope: the greatest certificate, stepping over siblings, at any page size. */
    method TrimFloor(scope: Key) returns (r: FloorRead)
      requires pageLimit > 0
      ensures r.Floored? ==> IsFloor(keys, CertPrefix(scope), r.floor)
      ensures (scope == "" || ValidIdentifier(scope)) && Walkable(CertStart(scope)) ==> r.Floored?
    {
      if scope != "" && !ValidIdentifier(scope) { return InvalidIdentifier; }
      var p := CertPrefix(scope);
      var after := CertStart(scope);
      var floor: Option<nat> := None;
      forall k | k in keys && SeqOf(p, k).Some? ensures Past(after, k) { StartsBefore(scope, k); }
      hide SeqOf, Less;
      while true
        invariant after == CertStart(scope) || after in keys
        invariant Covered(keys, p, after, floor)
        decreases |Beyond(keys, after)|
      {
        var ok, page := ListAfter(after);
        if !ok { return InvalidIdentifier; }
        ghost var from := after;
        for i := 0 to |page|
          invariant after == Cursor(from, page, i) && Covered(keys, p, after, floor)
        {
          var key := page[i];
          ghost var cursor := after;
          forall k | k in keys ensures Past(cursor, k) ==> k == key || Less(key, k) {
            NextInPage(keys, from, pageLimit, page, i, k);
          }
          if !HasPrefix(key, p) {
            if !Less(key, p) {
              PassedTheBlock(keys, p, after, key, floor);
              return Floored(floor);
            }
            SeqNeedsPrefix(p, key);
          } else {
            var n := SeqOf(p, key);
            SeqNeedsPrefix(p, key);
            if n.Some? && (floor.None? || floor.value < n.value) { floor := n; }
          }
          after := key;
        }
        if |page| < pageLimit {
          forall k | k in keys ensures !Past(after, k) {
            NextInPage(keys, from, pageLimit, page, |page|, k);
          }
          return Floored(floor);
        }
        NextInPage(keys, from, pageLimit, page, |page| - 1, page[|page| - 1]);
        assert Past(from, after);
        BeyondShrinks(keys, from, after);
      }
    }

    /** The ascending walk from seq 0: collect seq-shaped keys below `first`, stop at anything else. */
    method Walk(p: Key, first: nat) returns (ok: bool, pending: seq<Key>)
      requires pageLimit > 0
      ensures ok ==> forall k :: k in pending <==> Doomed(keys, p, first, k)
      ensures ok ==> forall i, j :: 0 <= i < j < |pending| ==> Less(pending[i], pending[j])
      ensures Walkable(p + SeqComponent(0)) ==> ok
    {
      var start := p + SeqComponent(0);
      pending := [];
      var after := start;
      hide SeqOf, Less, Doomed;
      LessIrreflexive(start);
      LessTransitiveForAll(start);
      while true
        invariant after == Cursor(start, pending, |pending|)
        invariant Collected(keys, p, first, start, pending)
        decreases |Beyond(keys, after)|
      {
        var page;
        ok, page := ListAfter(after);
        if !ok { return; }
        ghost var from := after;
        if page == [] {
          forall k | k in keys ensures !Past(after, k) {
            NextInPage(keys, from, pageLimit, page, 0, k);
          }
          CollectedAll(keys, p, first, start, pending, after);
          return;
        }
        var done;
        done, pending := WalkPage(p, first, after, page, pending);
        if done { return; }
        NextInPage(keys, from, pageLimit, page, |page| - 1, page[|page| - 1]);
        after := page[|page| - 1];
        BeyondShrinks(keys, from, after);
      }
    }

    /** One page of the walk. */
    method WalkPage(p: Key, first: nat, from: Key, page: seq<Key>, before: seq<Key>)
        returns (done: bool, pending: seq<Key>)
      requires IsPage(keys, from, pageLimit, page) && Collected(keys, p, first, p + SeqComponent(0), before)
      requires from == Cursor(p + SeqComponent(0), before, |before|)
      ensures Collected(keys, p, first, p + SeqComponent(0), pending)
      ensures done ==> forall k :: k in pending <==> Doomed(keys, p, first, k)
      ensures !done ==> Cursor(from, page, |page|) == Cursor(p + SeqComponent(0), pending, |pending|)
    {
      hide SeqOf, Less, Doomed;
      ghost var start := p + SeqComponent(0);
      pending, done := before, true;
      for i := 0 to |page|
        invariant Cursor(from, page, i) == Cursor(start, pending, |pending|)
        invariant Collected(keys, p, first, start, pending)
      {
        var key := page[i];
        ghost var after := Cursor(from, page, i);
        forall k | k in keys ensures Past(after, k) ==> k == key || Less(key, k) {
          NextInPage(keys, from, pageLimit, page, i, k);
        }
        NextInPage(keys, from, pageLimit, page, i, key);
        var n := SeqOf(p, key);
        if n.None? {
          StopsAtStray(keys, p, first, start, pending, after, key);
          return;
        }
        if n.value == 0 {
          CursorPassesZero(keys, p, first, start, pending, after, key);
          assert false;
        }
        if n.value >= first {
          StopsAtFloor(keys, p, first, start, pending, after, key);
          return;
        }
        CollectsOne(keys, p, first, start, pending, after, key);
        pending := pending + [key];
      }
      done := false;
    }

    /**
     The certified sweep: refused unless a certificate covers `first`; otherwise every doomed key of the
     data, tombstone and counter ranges is deleted if its request is not lost, and counted by its answer.
    */
    method DeleteBelow(scope: Key, dataPrefix: Key, first: nat, fates: Key -> Fate) returns (r: Swept)
      requires pageLimit > 0 && first <= U64_MAX
      modifies this`keys
      ensures !r.Report? ==> keys == old(keys)
      ensures r.Report? ==> Tally(old(keys), keys, SweptKeys(old(keys), dataPrefix, first), fates, r)
      ensures forall k :: k in old(keys) && k !in keys ==> SweptKey(old(keys), dataPrefix, first, k)
      ensures r.Report? && r.remaining == 0 ==>
        forall k :: k in keys <==> k in old(keys) && !SweptKey(old(keys), dataPrefix, first, k)
      ensures r.Report? ==> exists floor :: IsFloor(old(keys), CertPrefix(scope), Some(floor)) && first <= floor
      ensures r.Report? ==> ValidIdentifier(dataPrefix + SeqComponent(0))
      ensures r.Inadmissible? ==>
        || (scope != "" && !ValidIdentifier(scope)) || !old(Walkable(CertStart(scope)))
        || !old(Walkable(dataPrefix + SeqComponent(0))) || !old(Walkable(TombstoneKey(dataPrefix) + SeqComponent(0)))
        || !old(Walkable(IncarnationKey(dataPrefix) + SeqComponent(0)))
      ensures r.NotCertified? ==>
        exists floor: Option<nat> ::
          IsFloor(old(keys), CertPrefix(scope), floor) && (floor.None? || floor.value < first)
    {
      hide SweptKey, Walkable, SweptKeys, Tally, IsFloor, Elements;
      var certified := TrimFloor(scope);
      if certified.InvalidIdentifier? { return Inadmissible; }
      if certified.floor.None? || first > certified.floor.value { return NotCertified; }
      if !ValidIdentifier(dataPrefix + SeqComponent(0)) {
        NotWalkable(dataPrefix + SeqComponent(0));
        return Inadmissible;
      }
      var ok, pending := Gather(dataPrefix, first);
      if !ok { return Inadmissible; }
      ghost var before, swept := keys, SweptKeys(keys, dataPrefix, first);
      var examined, deleted, remaining := DeleteAll(pending, fates);
      r := Report(examined, deleted, remaining);
      TallyUp(before, keys, pending, swept, fates, r);
      TallyMeans(before, keys, dataPrefix, first, fates, r);
    }

    lemma NotWalkable(start: Key)
      ensures !ValidIdentifier(start) ==> !Walkable(start)
    {
    }

    /** The three walks of a sweep: every key that it will collect, each once. */
    method Gather(dataPrefix: Key, first: nat) returns (ok: bool, pending: seq<Key>)
      requires pageLimit > 0
      ensures ok ==> Distinct(pending) && forall k :: k in pending <==> k in SweptKeys(keys, dataPrefix, first)
      ensures !ok ==>
        || !Walkable(dataPrefix + SeqComponent(0)) || !Walkable(TombstoneKey(dataPrefix) + SeqComponent(0))
        || !Walkable(IncarnationKey(dataPrefix) + SeqComponent(0))
    {
      hide Walkable, Doomed;
      pending := [];
      var data, tombstones, counters;
      ok, data := Walk(dataPrefix, first);
      if !ok { return; }
      ok, tombstones := Walk(TombstoneKey(dataPrefix), first);
      if !ok { return; }
      ok, counters := Walk(IncarnationKey(dataPrefix), first);
      if !ok { return; }
      pending := data + tombstones + counters;
      assert forall k :: k in pending <==> SweptKey(keys, dataPrefix, first, k);
      SweptIsThere(keys, dataPrefix, first);
      RangesApart(keys, dataPrefix, first, data, tombstones, counters);
    }

    method DeleteAll(pending: seq<Key>, fates: Key -> Fate) returns (examined: nat, deleted: nat, remaining: nat)
      requires Distinct(pending)
      modifies this`keys
      ensures keys == old(keys) - GoneOf(pending, fates) && examined == |pending|
      ensures deleted == |DoneOf(pending, fates)| && remaining == |FailedOf(pending, fates)|
    {
      hide GoneOf, DoneOf, FailedOf;
      examined, deleted, remaining := 0, 0, 0;
      NoFates(fates);
      for i := 0 to |pending|
        invariant keys == old(keys) - GoneOf(pending[..i], fates) && examined == i
        invariant deleted == |DoneOf(pending[..i], fates)| && remaining == |FailedOf(pending[..i], fates)|
      {
        DoneSnoc(pending, i, fates);
        FailedSnoc(pending, i, fates);
        GoneSnoc(pending, i, fates);
        examined := examined + 1;
        if !fates(pending[i]).FailedKept? { keys := keys - {pending[i]}; }
        if fates(pending[i]).Done? { deleted := deleted + 1; } else { remaining := remaining + 1; }
      }
      assert pending[..|pending|] == pending;
    }

    /**
     Raise the floor; others may raise it further before the effective floor is read back.  `advanced` says
     that the effective floor is this proposal's and was not before.
    */
    method ProposeTrim(scope: Key, first: nat, fate: Fate, others: set<Key>) returns (r: Option<Proposed>)
      requires pageLimit > 0 && first <= U64_MAX
      modifies this`keys
      ensures old(keys) <= keys <= old(keys) + others + {CertPrefix(scope) + SeqComponent(first)}
      ensures r.None? ==>
        || (scope != "" && !ValidIdentifier(scope)) || !old(Walkable(CertStart(scope))) || !Walkable(CertStart(scope))
      ensures r.Some? && r.value.NotMonotone? ==>
        first < r.value.certified && IsFloor(old(keys), CertPrefix(scope), Some(r.value.certified)) && keys == old(keys)
      ensures r.Some? ==>
        forall c: nat :: IsFloor(old(keys), CertPrefix(scope), Some(c)) && first < c ==> r.value == NotMonotone(c)
      ensures r.Some? && r.value.Unresolved? ==>
        && !fate.Done? && !IsFloor(old(keys), CertPrefix(scope), Some(first))
        && keys == old(keys) + if fate.FailedKept? then {} else {CertPrefix(scope) + SeqComponent(first)}
      ensures r.Some? && r.value.TrimState? ==>
        && first <= r.value.firstRetained && IsFloor(keys, CertPrefix(scope), Some(r.value.firstRetained))
        && (r.value.advanced <==>
              r.value.firstRetained == first && !IsFloor(old(keys), CertPrefix(scope), Some(first)))
      ensures IsFloor(old(keys), CertPrefix(scope), Some(first)) && r.Some? ==>
        r.value == TrimState(first, false) && keys == old(keys)
    {
      hide SeqOf, CertPrefix, CertStart, Walkable;
      var p := CertPrefix(scope);
      var certified := TrimFloor(scope);
      if certified.InvalidIdentifier? { return None; }
      OneFloor(keys, p, certified.floor);
      if certified.floor.Some? && first < certified.floor.value {
        return Some(NotMonotone(certified.floor.value));
      }
      if certified.floor == Some(first) { return Some(TrimState(first, false)); }
      var key := p + SeqComponent(first);
      if !fate.FailedKept? { keys := keys + {key}; }
      if !fate.Done? { return Some(Unresolved); }
      keys := keys + others;
      SeqOfPrinted(p, first);
      var effective := TrimFloor(scope);
      if effective.InvalidIdentifier? { return None; }
      assert key in keys;
      var floor := if effective.floor.Some? then effective.floor.value else first;
      r := Some(TrimState(floor, floor == first));
    }
  }

  /** A key set has one floor. */
  lemma OneFloor(keys: set<Key>, p: Key, floor: Option<nat>)
    requires IsFloor(keys, p, floor)
    ensures forall c: nat :: IsFloor(keys, p, Some(c)) ==> floor == Some(c)
  {
    hide SeqComponent;
    forall c: nat | IsFloor(keys, p, Some(c)) ensures floor == Some(c) {
      SeqOfPrinted(p, c);
      if floor.Some? { SeqOfPrinted(p, floor.value); }
    }
  }

  ghost function SweptKeys(keys: set<Key>, dataPrefix: Key, first: nat): set<Key> {
    set k | k in keys && SweptKey(keys, dataPrefix, first, k)
  }

  lemma SweptIsThere(keys: set<Key>, dataPrefix: Key, first: nat)
    ensures forall k :: SweptKey(keys, dataPrefix, first, k) ==> k in keys
  {
  }

  /** Gone are the swept keys whose request took effect; the report counts each swept key by its answer. */
  ghost predicate Tally(before: set<Key>, now: set<Key>, swept: set<Key>, fates: Key -> Fate, r: Swept) {
    && r.Report?
    && now == before - (set k | k in swept && !fates(k).FailedKept?)
    && r.deleted == |set k | k in swept && fates(k).Done?|
    && r.remaining == |set k | k in swept && !fates(k).Done?|
    && r.examined == |swept| && r.examined == r.deleted + r.remaining
  }

  lemma TallyUp(before: set<Key>, now: set<Key>, pending: seq<Key>, swept: set<Key>, fates: Key -> Fate, r: Swept)
    requires Distinct(pending) && forall k :: k in pending <==> k in swept
    requires r == Report(|pending|, |DoneOf(pending, fates)|, |FailedOf(pending, fates)|)
    requires now == before - GoneOf(pending, fates)
    ensures Tally(before, now, swept, fates, r)
  {
    DistinctSize(pending);
    CountedTwice(swept, fates);
    assert Elements(pending) == swept;
    assert GoneOf(pending, fates) == set k | k in swept && !fates(k).FailedKept?;
    assert DoneOf(pending, fates) == set k | k in swept && fates(k).Done?;
    assert FailedOf(pending, fates) == set k | k in swept && !fates(k).Done?;
  }

  lemma TallyMeans(before: set<Key>, now: set<Key>, dataPrefix: Key, first: nat, fates: Key -> Fate, r: Swept)
    requires Tally(before, now, SweptKeys(before, dataPrefix, first), fates, r)
    ensures forall k :: k in before && k !in now ==> SweptKey(before, dataPrefix, first, k)
    ensures r.remaining == 0 ==> forall k :: k in now <==> k in before && !SweptKey(before, dataPrefix, first, k)
  {
    hide SweptKey;
    var swept := SweptKeys(before, dataPrefix, first);
    var failed := set k | k in swept && !fates(k).Done?;
    if r.remaining == 0 {
      assert failed == {};
      forall k | k in swept ensures k !in now {
        assert !fates(k).Done? ==> k in failed;
      }
    }
  }

  lemma CountedTwice(s: set<Key>, fates: Key -> Fate)
    ensures |s| == |set k | k in s && fates(k).Done?| + |set k | k in s && !fates(k).Done?|
  {
    var done, failed := set k | k in s && fates(k).Done?, set k | k in s && !fates(k).Done?;
    SizeJoin(done, failed);
    assert s == done + failed;
  }

  function TombstoneKey(k: Key): Key { "tombstones/" + k }

  function IncarnationKey(k: Key): Key { "incarnations/" + k }

  ghost predicate SweptKey(keys: set<Key>, dataPrefix: Key, first: nat, k: Key) {
    || Doomed(keys, dataPrefix, first, k)
    || Doomed(keys, TombstoneKey(dataPrefix), first, k)
    || Doomed(keys, IncarnationKey(dataPrefix), first, k)
  }

  /** Keys of the three ranges have three different lengths. */
  lemma RangesApart(keys: set<Key>, p: Key, first: nat, data: seq<Key>, tombstones: seq<Key>, counters: seq<Key>)
    requires forall k :: k in data ==> Doomed(keys, p, first, k)
    requires forall k :: k in tombstones ==> Doomed(keys, TombstoneKey(p), first, k)
    requires forall k :: k in counters ==> Doomed(keys, IncarnationKey(p), first, k)
    requires forall i, j :: 0 <= i < j < |data| ==> Less(data[i], data[j])
    requires forall i, j :: 0 <= i < j < |tombstones| ==> Less(tombstones[i], tombstones[j])
    requires forall i, j :: 0 <= i < j < |counters| ==> Less(counters[i], counters[j])
    ensures Distinct(data + tombstones + counters)
  {
    var all := data + tombstones + counters;
    forall i | 0 <= i < |all|
      ensures |all[i]| == |p| + SEQ_DIGITS + (if i < |data| then 0 else if i < |data| + |tombstones| then 11 else 13)
    {
      assert all[i] in (if i < |data| then data else if i < |data| + |tombstones| then tombstones else counters);
    }
    forall i, j | 0 <= i < j < |all| ensures all[i] != all[j] {
      LessIrreflexive(all[i]);
    }
  }

  /** The walk so far: every key past the start and not past the cursor, all of them in range. */
  ghost predicate Collected(keys: set<Key>, p: Key, first: nat, start: Key, pending: seq<Key>) {
    && (forall i :: 0 <= i < |pending| ==> InRange(keys, p, first, pending[i]) && Past(start, pending[i]))
    && (forall i, j :: 0 <= i < j < |pending| ==> Less(pending[i], pending[j]))
    && (forall k :: k in keys && Past(start, k) ==> k in pending || Past(Cursor(start, pending, |pending|), k))
  }

  lemma LessTransitiveForAll(start: Key)
    ensures forall a, b :: Less(start, a) && Less(a, b) ==> Less(start, b)
  {
    forall a, b | Less(start, a) && Less(a, b) ensures Less(start, b) {
      LessTransitive(start, a, b);
    }
  }

  lemma CursorBehind(keys: set<Key>, p: Key, first: nat, start: Key, pending: seq<Key>, k: Key)
    requires Collected(keys, p, first, start, pending) && k in pending
    ensures !Past(Cursor(start, pending, |pending|), k)
  {
    var i :| 0 <= i < |pending| && pending[i] == k;
    LessTotal(k, pending[|pending| - 1]);
  }

  lemma RangeStarts(keys: set<Key>, p: Key, first: nat, k: Key)
    requires InRange(keys, p, first, k)
    ensures Past(p + SeqComponent(0), k)
  {
    SeqOrder(p, 0, SeqOf(p, k).value);
  }

  lemma CursorPassesZero(keys: set<Key>, p: Key, first: nat, start: Key, pending: seq<Key>, after: Key, key: Key)
    requires start == p + SeqComponent(0) && Collected(keys, p, first, start, pending)
    requires after == Cursor(start, pending, |pending|) && Past(after, key)
    ensures SeqOf(p, key) != Some(0)
  {
    if SeqOf(p, key) == Some(0) {
      if pending != [] { LessTransitive(start, after, key); }
      LessIrreflexive(start);
    }
  }

  lemma CollectsOne(keys: set<Key>, p: Key, first: nat, start: Key, pending: seq<Key>, after: Key, key: Key)
    requires Collected(keys, p, first, start, pending) && InRange(keys, p, first, key)
    requires after == Cursor(start, pending, |pending|) && Past(after, key)
    requires forall k :: k in keys && Past(after, k) ==> k == key || Less(key, k)
    ensures Collected(keys, p, first, start, pending + [key])
  {
    hide SeqOf, Less, InRange;
    if pending != [] { LessTransitive(start, after, key); }
    forall i | 0 <= i < |pending| ensures Less(pending[i], key) {
      if i < |pending| - 1 { LessTransitive(pending[i], after, key); }
    }
  }

  /** Nothing is left past the cursor. */
  lemma CollectedAll(keys: set<Key>, p: Key, first: nat, start: Key, pending: seq<Key>, after: Key)
    requires start == p + SeqComponent(0) && Collected(keys, p, first, start, pending)
    requires after == Cursor(start, pending, |pending|) && forall k :: k in keys ==> !Past(after, k)
    ensures forall k :: k in pending <==> Doomed(keys, p, first, k)
  {
    forall k ensures k in pending <==> Doomed(keys, p, first, k) {
      PendingDoomed(keys, p, first, start, pending);
      if Doomed(keys, p, first, k) { RangeStarts(keys, p, first, k); }
    }
  }

  /** What was collected lies before every stray key. */
  lemma PendingDoomed(keys: set<Key>, p: Key, first: nat, start: Key, pending: seq<Key>)
    requires start == p + SeqComponent(0) && Collected(keys, p, first, start, pending)
    ensures forall k :: k in pending ==> Doomed(keys, p, first, k)
  {
    forall k, y | k in pending && Stray(keys, p, y) ensures !Less(y, k) {
      var i :| 0 <= i < |pending| && pending[i] == k;
      if Less(y, k) {
        assert y !in pending;
        var c := Cursor(start, pending, |pending|);
        LessTransitive(c, y, k);
        CursorBehind(keys, p, first, start, pending, k);
      }
    }
  }

  lemma StopsAtStray(keys: set<Key>, p: Key, first: nat, start: Key, pending: seq<Key>, after: Key, y: Key)
    requires start == p + SeqComponent(0) && Collected(keys, p, first, start, pending)
    requires after == Cursor(start, pending, |pending|) && y in keys && Past(after, y) && SeqOf(p, y).None?
    requires forall k :: k in keys && Past(after, k) ==> k == y || Less(y, k)
    ensures forall k :: k in pending <==> Doomed(keys, p, first, k)
  {
    PendingDoomed(keys, p, first, start, pending);
    if pending != [] { LessTransitive(start, after, y); }
    assert Stray(keys, p, y);
    forall k | Doomed(keys, p, first, k) ensures k in pending {
      RangeStarts(keys, p, first, k);
    }
  }

  lemma StopsAtFloor(keys: set<Key>, p: Key, first: nat, start: Key, pending: seq<Key>, after: Key, y: Key)
    requires start == p + SeqComponent(0) && Collected(keys, p, first, start, pending)
    requires after == Cursor(start, pending, |pending|) && SeqOf(p, y).Some? && SeqOf(p, y).value >= first
    requires forall k :: k in keys && Past(after, k) ==> k == y || Less(y, k)
    ensures forall k :: k in pending <==> Doomed(keys, p, first, k)
  {
    PendingDoomed(keys, p, first, start, pending);
    forall k | Doomed(keys, p, first, k) ensures k in pending {
      RangeStarts(keys, p, first, k);
      SeqOrder(p, SeqOf(p, y).value, SeqOf(p, k).value);
    }
  }

  /** Certificates up to the cursor are accounted for in `floor`. */
  ghost predicate Covered(keys: set<Key>, p: Key, after: Key, floor: Option<nat>) {
    && (floor.Some? ==> floor.value <= U64_MAX && p + SeqComponent(floor.value) in keys)
    && forall k :: k in keys && SeqOf(p, k).Some? ==>
         Past(after, k) || (floor.Some? && SeqOf(p, k).value <= floor.value)
  }

  lemma SeqNeedsPrefix(p: Key, k: Key)
    ensures SeqOf(p, k).Some? ==>
      HasPrefix(k, p) && SeqOf(p, k).value <= U64_MAX && k == p + SeqComponent(SeqOf(p, k).value)
  {
  }

  lemma StartsBefore(scope: Key, k: Key)
    requires SeqOf(CertPrefix(scope), k).Some?
    ensures Less(CertStart(scope), k)
  {
    var tail := k[|CertStart(scope)|..];
    assert k == CertStart(scope) + tail && CertStart(scope) + "" == CertStart(scope);
    LessAfterPrefix(CertStart(scope), "", tail);
  }

  lemma PassedTheBlock(keys: set<Key>, p: Key, after: Key, y: Key, floor: Option<nat>)
    requires Covered(keys, p, after, floor) && !HasPrefix(y, p) && !Less(y, p)
    requires forall k :: k in keys && Past(after, k) ==> k == y || Less(y, k)
    ensures IsFloor(keys, p, floor)
  {
    forall k | k in keys && SeqOf(p, k).Some? ensures floor.Some? && SeqOf(p, k).value <= floor.value {
      BlockPassed(p, y, k);
      LessTotal(k, y);
    }
  }

  // ---- What a sweep never touches, and what it empties -------------------------------------

  /** The prefix's last segment is the reserved one. */
  predicate EndsInTrims(p: Key) { p == "trims/" || (|p| > 7 && HasSuffix(p, "/trims/")) }

  /** A certificate of some scope. */
  ghost predicate IsCertificate(k: Key) { exists scope :: SeqOf(CertPrefix(scope), k).Some? }

  lemma CertificateShape(p: Key, n: nat)
    requires n <= U64_MAX
    ensures IsCertificate(p + SeqComponent(n)) <==> EndsInTrims(p)
  {
    var k := p + SeqComponent(n);
    if scope :| SeqOf(CertPrefix(scope), k).Some? {
      var c := CertPrefix(scope);
      assert |c| == |p|;
      assert p == k[..|p|] == c;
    }
    if EndsInTrims(p) {
      var scope := if p == "trims/" then "" else p[..|p| - 7];
      assert p == CertPrefix(scope);
      SeqOfPrinted(p, n);
    }
  }

  /** Whatever the kernel admits from a caller is no certificate, tombstone or counter. */
  lemma AdmissibleIsNoCertificate(namespace: Key, k: Key)
    requires Admissible(namespace, k)
    ensures !IsCertificate(k)
    ensures forall x :: x != "" ==> k != TombstoneKey(x) && k != IncarnationKey(x)
  {
    hide SeqOf, Guarded, ValidIdentifier;
    if scope :| SeqOf(CertPrefix(scope), k).Some? {
      CertificateHasSegment(scope, k);
    }
    forall x | x != "" ensures k != TombstoneKey(x) && k != IncarnationKey(x) {
      UnderRoot("tombstones", x);
      UnderRoot("incarnations", x);
      assert "tombstones" + "/" == "tombstones/" && "incarnations" + "/" == "incarnations/";
    }
  }

  lemma CertificateHasSegment(scope: Key, k: Key)
    requires SeqOf(CertPrefix(scope), k).Some?
    ensures HasTrimsSegment(k)
  {
    var p := CertPrefix(scope);
    SeqNeedsPrefix(p, k);
    hide SeqOf;
    if scope == "" {
      assert HasPrefix(k, "trims/");
    } else {
      assert p[|scope|..] == "/trims/" && k[..|p|] == p;
      assert k[|scope|..|scope| + 7] == k[..|p|][|scope|..];
      assert TrimsAt(k, |scope|);
    }
  }

  lemma UnderRoot(root: Key, x: Key)
    requires x != ""
    ensures Reserves(root, root + "/" + x)
  {
    var k := root + "/" + x;
    assert k[..|root|] == root;
  }

  lemma SuffixOfTail(q: Key, p: Key, suffix: Key)
    requires |suffix| <= |p|
    ensures HasSuffix(q + p, suffix) <==> HasSuffix(p, suffix)
  {
    assert (q + p)[|q + p| - |suffix|..] == p[|p| - |suffix|..];
  }

  lemma SuffixChar(s: Key, suffix: Key, i: nat)
    requires 0 < i <= |suffix|
    ensures HasSuffix(s, suffix) ==> s[|s| - i] == suffix[|suffix| - i]
  {
    if HasSuffix(s, suffix) {
      assert s[|s| - |suffix|..][|suffix| - i] == s[|s| - i];
    }
  }

  lemma SuffixAfterSlash(q: Key, p: Key)
    requires q != "" && q[|q| - 1] == '/' && |p| == 6
    ensures HasSuffix(q + p, "/trims/") <==> p == "trims/"
  {
    assert (q + p)[|q + p| - 7..] == "/" + p;
    assert "/trims/" == "/" + "trims/" && ("/" + p)[1..] == p && ("/" + "trims/")[1..] == "trims/";
  }

  /** A first segment. */
  predicate IsRoot(q: Key) {
    |q| >= 7 && q[|q| - 1] == '/' && forall i :: 0 <= i < |q| - 1 ==> q[i] != '/'
  }

  lemma MirrorRoots()
    ensures IsRoot("tombstones/") && IsRoot("incarnations/")
  {}

  /** The mirrored ranges are certificates exactly when the data range is. */
  lemma MirroredTrims(q: Key, p: Key)
    requires IsRoot(q) && !HasPrefix(p, "/")
    ensures EndsInTrims(q + p) <==> EndsInTrims(p)
  {
    hide HasSuffix;
    if |p| >= 7 {
      SuffixOfTail(q, p, "/trims/");
      SuffixChar(p, "/trims/", 7);
    } else if |p| == 6 {
      SuffixAfterSlash(q, p);
    } else {
      SuffixChar(q + p, "/trims/", 7);
    }
  }

  /** A swept key is a certificate if and only if the data prefix ends in the reserved segment. */
  lemma SweptCertificateIff(keys: set<Key>, dataPrefix: Key, first: nat, k: Key)
    requires SweptKey(keys, dataPrefix, first, k) && ValidIdentifier(dataPrefix + SeqComponent(0))
    ensures IsCertificate(k) <==> EndsInTrims(dataPrefix)
  {
    assert Fitting(dataPrefix + SeqComponent(0), 0);
    MirrorRoots();
    MirroredTrims("tombstones/", dataPrefix);
    MirroredTrims("incarnations/", dataPrefix);
    var p := if Doomed(keys, dataPrefix, first, k) then dataPrefix
      else if Doomed(keys, TombstoneKey(dataPrefix), first, k) then TombstoneKey(dataPrefix)
      else IncarnationKey(dataPrefix);
    hide EndsInTrims;
    CertificateShape(p, SeqOf(p, k).value);
  }

  /** Neither seq 0 nor anything at or above the boundary is ever swept. */
  lemma SweptSeqs(keys: set<Key>, dataPrefix: Key, first: nat, n: nat)
    requires n <= U64_MAX && SweptKey(keys, dataPrefix, first, dataPrefix + SeqComponent(n))
    ensures 1 <= n < first
  {
    var k := dataPrefix + SeqComponent(n);
    SeqOfPrinted(dataPrefix, n);
    assert |TombstoneKey(dataPrefix)| > |dataPrefix| && |IncarnationKey(dataPrefix)| > |dataPrefix|;
  }

  /** A floor never falls while certificates stay. */
  lemma FloorRises(a: set<Key>, b: set<Key>, p: Key, f: Option<nat>, g: Option<nat>)
    requires IsFloor(a, p, f) && IsFloor(b, p, g)
    requires forall k :: k in a && SeqOf(p, k).Some? ==> k in b
    ensures f.Some? ==> g.Some? && f.value <= g.value
    ensures (forall k :: k in b && SeqOf(p, k).Some? ==> k in a) ==> f == g
  {
    if f.Some? { SeqOfPrinted(p, f.value); }
    if g.Some? { SeqOfPrinted(p, g.value); }
  }

  /** So a sweep of data moves no floor of any scope. */
  lemma SweepKeepsFloors(a: set<Key>, b: set<Key>, dataPrefix: Key, first: nat, scope: Key, f: Option<nat>,
      g: Option<nat>)
    requires b <= a && forall k :: k in a && k !in b ==> SweptKey(a, dataPrefix, first, k)
    requires ValidIdentifier(dataPrefix + SeqComponent(0)) && !EndsInTrims(dataPrefix)
    requires IsFloor(a, CertPrefix(scope), f) && IsFloor(b, CertPrefix(scope), g)
    ensures f == g
  {
    forall k | k in a && SeqOf(CertPrefix(scope), k).Some? ensures k in b {
      if k !in b {
        SweptCertificateIff(a, dataPrefix, first, k);
        assert IsCertificate(k);
      }
    }
    FloorRises(a, b, CertPrefix(scope), f, g);
  }

  lemma SweepOfSiblings(p: Key, q: Key)
    requires p != "" && q != "" && p[0] < q[0]
    ensures var keys := {p + SeqComponent(10), q + SeqComponent(5)};
      && IsFloor(keys, p, Some(10)) && IsFloor(keys, q, Some(5))
      && Doomed(keys, q, 10, q + SeqComponent(5)) && IsFloor(keys - {q + SeqComponent(5)}, q, None)
  {
    SeqOfPrinted(p, 10);
    SeqOfPrinted(q, 5);
    OtherScope(p, q, 10, 5);
    OtherScope(p, q, 10, 0);
    hide SeqOf, SeqComponent, HasPrefix, Less;
  }

  /** A certified sweep of one scope, given another scope's certificates as its data, lowers that floor. */
  lemma SweepOfCertificatesLowersFloor()
    ensures var keys := {CertPrefix("a") + SeqComponent(10), CertPrefix("b") + SeqComponent(5)};
      && IsFloor(keys, CertPrefix("a"), Some(10)) && IsFloor(keys, CertPrefix("b"), Some(5))
      && SweptKey(keys, CertPrefix("b"), 10, CertPrefix("b") + SeqComponent(5))
      && IsFloor(keys - {CertPrefix("b") + SeqComponent(5)}, CertPrefix("b"), None)
  {
    var p, q := CertPrefix("a"), CertPrefix("b");
    assert p == "a" + "/trims/" && q == "b" + "/trims/";
    SweepOfSiblings(p, q);
    hide CertPrefix, SeqComponent, IsFloor, Doomed;
  }

  lemma OtherScope(p: Key, q: Key, m: nat, n: nat)
    requires p != "" && q != "" && p[0] < q[0] && m <= U64_MAX && n <= U64_MAX
    ensures SeqOf(q, p + SeqComponent(m)).None? && SeqOf(p, q + SeqComponent(n)).None?
    ensures !Less(q + SeqComponent(n), p + SeqComponent(m))
  {
    FirstOfPrefix(p + SeqComponent(m), q);
    FirstOfPrefix(q + SeqComponent(n), p);
  }

  /** When the data range holds only seq-shaped keys, a sweep empties it. */
  lemma ShapedRangeIsEmptied(keys: set<Key>, p: Key, first: nat, k: Key)
    requires forall y :: y in keys && HasPrefix(y, p) ==> SeqOf(p, y).Some?
    requires InRange(keys, p, first, k)
    ensures Doomed(keys, p, first, k)
  {
    forall y | Stray(keys, p, y) ensures !Less(y, k) {
      PrefixBlock(p, p + SeqComponent(0), y);
      PrefixBlock(p, k, y);
      LessTotal(y, p);
    }
  }

  /** One stray key hides everything behind it: seq 2 stays although it is below the boundary. */
  lemma StrayKeyHidesRest(p: Key)
    ensures var stray := p + SeqComponent(1) + "x";
      var keys := {stray, p + SeqComponent(2)};
      InRange(keys, p, 3, p + SeqComponent(2)) && !Doomed(keys, p, 3, p + SeqComponent(2))
  {
    hide SeqComponent, SeqOf, Less, InRange, Doomed;
    SeqOfPrinted(p, 2);
    SmallSeqs();
    NotShaped(p, SeqComponent(1) + "x");
    StrayBetween(p, SeqComponent(0), SeqComponent(1), SeqComponent(2));
    HiddenBehind(p, p + SeqComponent(1) + "x", 2, 3);
  }

  lemma SmallSeqs()
    ensures Less(SeqComponent(0), SeqComponent(1)) && Less(SeqComponent(1), SeqComponent(2))
  {
    hide SeqComponent, Less;
    SeqLess(0, 1);
    SeqLess(1, 2);
  }

  lemma SeqLess(m: nat, n: nat)
    requires m < n <= U64_MAX
    ensures Less(SeqComponent(m), SeqComponent(n))
  {
    hide SeqComponent, Less;
    SeqOrder("", m, n);
    assert "" + SeqComponent(m) == SeqComponent(m) && "" + SeqComponent(n) == SeqComponent(n);
  }

  lemma HiddenBehind(p: Key, stray: Key, n: nat, first: nat)
    requires 1 <= n < first && n <= U64_MAX && SeqOf(p, p + SeqComponent(n)) == Some(n)
    requires SeqOf(p, stray).None? && Past(p + SeqComponent(0), stray) && Less(stray, p + SeqComponent(n))
    ensures var keys := {stray, p + SeqComponent(n)};
      InRange(keys, p, first, p + SeqComponent(n)) && !Doomed(keys, p, first, p + SeqComponent(n))
  {
    hide SeqOf, SeqComponent, Less;
    assert Stray({stray, p + SeqComponent(n)}, p, stray);
  }

  lemma StrayBetween(p: Key, zero: Key, one: Key, two: Key)
    requires |one| == |two| && Less(zero, one) && Less(one, two)
    ensures Less(p + zero, p + one + "x") && Less(p + one + "x", p + two) && p + one + "x" == p + (one + "x")
  {
    LessExtension(one, two, "x");
    LessLonger(zero, one, "x");
    hide Less;
    LessAfterPrefix(p, one + "x", two);
    LessAfterPrefix(p, zero, one + "x");
    assert p + one + "x" == p + (one + "x");
  }

  lemma NotShaped(p: Key, tail: Key)
    requires |tail| != SEQ_DIGITS
    ensures SeqOf(p, p + tail).None?
  {
    assert (p + tail)[|p|..] == tail;
  }

  lemma {:induction false} LessExtension(a: Key, b: Key, tail: Key)
    requires Less(a, b) && |a| == |b|
    ensures Less(a + tail, b)
  {
    if a[0] == b[0] {
      LessExtension(a[1..], b[1..], tail);
      assert (a + tail)[1..] == a[1..] + tail;
    }
  }

  lemma {:induction false} LessLonger(a: Key, b: Key, tail: Key)
    requires Less(a, b)
    ensures Less(a, b + tail)
  {
    if a != "" && a[0] == b[0] {
      LessLonger(a[1..], b[1..], tail);
      assert (b + tail)[1..] == b[1..] + tail;
    }
  }
}
