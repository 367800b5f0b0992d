/**
 One stream's log inside the keyspace that trims and sweeps work on.  What `Timelines` takes as the rules
 of a trimmed log is derived here from the operations themselves, over whole runs of them.
*/
module TrimmedLog {
  import opened Basics
  import opened Keys
  import opened Timelines
  import opened Trim
  import opened AppendExpected

  type World = map<Key, Stored>

  /** What may happen to the keyspace. */
  datatype Act =
    | Create(key: Key, stored: Stored)                      // put-if-absent, an appended event among others
    | Touch(key: Key, value: Option<Stored>)                // any change of a key that is not part of the log
    | Certify(scope: Key, first: Seq)                       // the certificate put of a trim proposal
    | Collect(scope: Key, dataPrefix: Key, first: Seq, key: Key)  // one delete of a certified sweep

  /** Kernel admission: a log may not live under the mirrored roots. */
  predicate Hosted(stream: Key) { !HasPrefix(stream, "tombstones") && !HasPrefix(stream, "incarnations") }

  /** Kernel admission of the log's keys is all that it takes. */
  lemma AdmittedIsHosted(stream: Key, t: Seq)
    requires Admissible(NAMESPACE, LogKey(stream, t))
    ensures Hosted(stream)
  {
    PrefixExtends(stream, "/log/" + SeqComponent(t), "tombstones");
    PrefixExtends(stream, "/log/" + SeqComponent(t), "incarnations");
    assert LogKey(stream, t) == stream + ("/log/" + SeqComponent(t));
  }

  lemma PrefixExtends(s: Key, rest: Key, root: Key)
    ensures HasPrefix(s, root) ==> HasPrefix(s + rest, root)
  {
    if HasPrefix(s, root) { assert (s + rest)[..|root|] == s[..|root|]; }
  }

  /** A key of one of the three ranges of a sweep. */
  ghost predicate SweptShape(dataPrefix: Key, first: nat, k: Key) {
    exists q :: q in {dataPrefix, TombstoneKey(dataPrefix), IncarnationKey(dataPrefix)}
      && SeqOf(q, k).Some? && 1 <= SeqOf(q, k).value < first
  }

  ghost predicate Covers(w: World, scope: Key, first: nat) {
    exists f :: first <= f && IsFloor(w.Keys, CertPrefix(scope), Some(f))
  }

  /** No key of the log has an incarnation counter: log keys are never destroyed. */
  ghost predicate IsCounter(stream: Key, k: Key) { exists t: Seq :: k == IncarnationKey(LogKey(stream, t)) }

  ghost predicate IsLogKey(stream: Key, k: Key) { exists t: Seq :: k == LogKey(stream, t) }

  function Do(w: World, a: Act): World {
    match a
    case Create(key, stored) => w[key := stored]
    case Touch(key, value) => if value.Some? then w[key := value.value] else w - {key}
    case Certify(scope, first) =>
      var key := CertPrefix(scope) + SeqComponent(first);
      if key in w then w else w[key := Stored(0, Junk(0))]
    case Collect(_, _, _, key) => w - {key}
  }

  /** The part of an act's legality that looks at the present world alone. */
  ghost predicate Lawful(stream: Key, w: World, a: Act) {
    match a
    case Create(key, _) => key !in w && !IsCertificate(key) && !IsCounter(stream, key)
    case Touch(key, _) => !IsCertificate(key) && !IsCounter(stream, key) && !IsLogKey(stream, key)
    case Certify(_, _) => true
    case Collect(scope, dataPrefix, first, key) =>
      && SweptShape(dataPrefix, first, key)
      && ValidIdentifier(dataPrefix + SeqComponent(0)) && !EndsInTrims(dataPrefix)
      && (dataPrefix == LogPrefix(stream) ==> scope == stream)
  }

  // ---- Shapes ---------------------------------------------------------------------------

  /** Whatever `DeleteBelow` deletes has the shape of its own ranges. */
  lemma SweptHasShape(keys: set<Key>, dataPrefix: Key, first: nat, k: Key)
    requires SweptKey(keys, dataPrefix, first, k)
    ensures SweptShape(dataPrefix, first, k)
  {
    hide SeqOf;
  }

  lemma ShapeIsNoCertificate(dataPrefix: Key, first: nat, k: Key)
    requires SweptShape(dataPrefix, first, k)
    requires ValidIdentifier(dataPrefix + SeqComponent(0)) && !EndsInTrims(dataPrefix)
    ensures !IsCertificate(k)
  {
    assert Fitting(dataPrefix + SeqComponent(0), 0);
    MirrorRoots();
    MirroredTrims("tombstones/", dataPrefix);
    MirroredTrims("incarnations/", dataPrefix);
    var q :| q in {dataPrefix, TombstoneKey(dataPrefix), IncarnationKey(dataPrefix)}
      && SeqOf(q, k).Some? && 1 <= SeqOf(q, k).value < first;
    hide EndsInTrims, SeqOf;
    SeqNeedsPrefix(q, k);
    CertificateShape(q, SeqOf(q, k).value);
  }

  lemma LogKeyIsNoCertificate(stream: Key, t: Seq)
    ensures !IsCertificate(LogKey(stream, t))
  {
    var p := LogPrefix(stream);
    assert p[|p| - 2] == 'g';
    SuffixChar(p, "/trims/", 2);
    CertificateShape(p, t);
  }

  lemma SamePrefix(p: Key, q: Key, m: nat, n: nat)
    requires m <= U64_MAX && n <= U64_MAX && p + SeqComponent(m) == q + SeqComponent(n)
    ensures p == q && m == n
  {
    var k := p + SeqComponent(m);
    assert |p| == |q| && p == k[..|p|] && q == k[..|q|];
    SeqOfPrinted(p, m);
    SeqOfPrinted(q, n);
  }

  /** A sweep that reaches the log at all is a sweep of the log's own range, below its boundary. */
  lemma SweptLogKey(stream: Key, dataPrefix: Key, first: nat, t: Seq)
    requires Hosted(stream) && SweptShape(dataPrefix, first, LogKey(stream, t))
    ensures dataPrefix == LogPrefix(stream) && 1 <= t < first
  {
    hide Hosted, LogPrefix, TombstoneKey, IncarnationKey;
    var k := LogKey(stream, t);
    var q :| q in {dataPrefix, TombstoneKey(dataPrefix), IncarnationKey(dataPrefix)}
      && SeqOf(q, k).Some? && 1 <= SeqOf(q, k).value < first;
    SamePrefix(q, LogPrefix(stream), SeqOf(q, k).value, t);
    NotMirrored(stream, dataPrefix);
  }

  lemma NotMirrored(stream: Key, p: Key)
    requires Hosted(stream)
    ensures TombstoneKey(p) != LogPrefix(stream) && IncarnationKey(p) != LogPrefix(stream)
  {
    RootShows(stream, "tombstones", p);
    RootShows(stream, "incarnations", p);
    hide HasPrefix;
    assert "tombstones" + "/" == "tombstones/" && "incarnations" + "/" == "incarnations/";
  }

  lemma RootShows(stream: Key, root: Key, p: Key)
    requires forall i :: 0 <= i < |root| ==> root[i] != '/'
    ensures root + "/" + p == LogPrefix(stream) ==> HasPrefix(stream, root)
  {
    var l := LogPrefix(stream);
    if root + "/" + p == l {
      assert l[|stream|] == '/';
      assert forall i :: 0 <= i < |root| ==> l[i] == root[i];
      assert |root| <= |stream| && stream[..|root|] == l[..|root|] == root;
    }
  }

  // ---- The stream's view of a world ----------------------------------------------------------

  ghost predicate IsView(stream: Key, w: World, s: Snapshot) {
    && (forall t :: t in s.slots <==> LogKey(stream, t) in w)
    && (forall t :: t in s.slots ==> s.slots[t] == w[LogKey(stream, t)])
    && s.eras == map[]
    && IsFloor(w.Keys, CertPrefix(stream), s.floor)
  }

  /** An act whose certificate stands changes the stream's view only as the rules of a log allow. */
  lemma ActIsLegal(stream: Key, w: World, a: Act, s: Snapshot, t: Snapshot)
    requires Hosted(stream) && Lawful(stream, w, a) && (a.Collect? ==> Covers(w, a.scope, a.first))
    requires IsView(stream, w, s) && IsView(stream, Do(w, a), t)
    ensures LegalStep(s, t)
  {
    FloorHolds(stream, w, a, stream, s.floor, t.floor);
    hide Lawful, Covers, IsFloor, Do, LogKey, Hosted;
    forall n | n in s.slots
      ensures if n in t.slots then t.slots[n] == s.slots[n] else 0 < n < Floor(s)
    {
      SlotIsLegal(stream, w, a, s.floor, n);
    }
  }

  lemma SlotIsLegal(stream: Key, w: World, a: Act, floor: Option<Seq>, n: Seq)
    requires Hosted(stream) && Lawful(stream, w, a) && (a.Collect? ==> Covers(w, a.scope, a.first))
    requires LogKey(stream, n) in w && IsFloor(w.Keys, CertPrefix(stream), floor)
    ensures LogKey(stream, n) in Do(w, a) ==> Do(w, a)[LogKey(stream, n)] == w[LogKey(stream, n)]
    ensures LogKey(stream, n) !in Do(w, a) ==> floor.Some? && 0 < n < floor.value
  {
    hide LogKey, IsFloor, Covers;
    LogKeyIsNoCertificate(stream, n);
    if a.Collect? && a.key == LogKey(stream, n) {
      SweptLogKey(stream, a.dataPrefix, a.first, n);
      CoveredFloor(w, stream, a.first, floor);
    } else {
      LogStays(stream, w, a, n);
    }
  }

  /** Every act but the collection of this very key leaves a log key's value alone. */
  lemma LogStays(stream: Key, w: World, a: Act, n: Seq)
    requires Lawful(stream, w, a) && LogKey(stream, n) in w && !(a.Collect? && a.key == LogKey(stream, n))
    ensures LogKey(stream, n) in Do(w, a) && Do(w, a)[LogKey(stream, n)] == w[LogKey(stream, n)]
  {
    hide SeqOf, SeqComponent, ValidIdentifier, EndsInTrims;
    if a.Touch? { assert IsLogKey(stream, LogKey(stream, n)); }
  }

  lemma CoveredFloor(w: World, scope: Key, first: nat, floor: Option<nat>)
    requires Covers(w, scope, first) && IsFloor(w.Keys, CertPrefix(scope), floor)
    ensures first == 0 || (floor.Some? && first <= floor.value)
  {
    var f :| first <= f && IsFloor(w.Keys, CertPrefix(scope), Some(f));
    FloorRises(w.Keys, w.Keys, CertPrefix(scope), Some(f), floor);
  }

  lemma CertificateStep(stream: Key, w: World, a: Act, k: Key)
    requires Lawful(stream, w, a) && k in w && IsCertificate(k)
    ensures k in Do(w, a)
  {
    hide IsCertificate, SweptShape, ValidIdentifier, EndsInTrims, SeqComponent;
    if a.Collect? { ShapeIsNoCertificate(a.dataPrefix, a.first, a.key); }
  }

  /** No act removes a certificate, so no act lowers the floor of any scope. */
  lemma FloorHolds(stream: Key, w: World, a: Act, scope: Key, f: Option<nat>, g: Option<nat>)
    requires Lawful(stream, w, a)
    requires IsFloor(w.Keys, CertPrefix(scope), f) && IsFloor(Do(w, a).Keys, CertPrefix(scope), g)
    ensures f.Some? ==> g.Some? && f.value <= g.value
  {
    forall k | k in w.Keys && SeqOf(CertPrefix(scope), k).Some? ensures k in Do(w, a).Keys {
      assert IsCertificate(k);
      CertificateStep(stream, w, a, k);
    }
    FloorRises(w.Keys, Do(w, a).Keys, CertPrefix(scope), f, g);
  }

  // ---- Runs -------------------------------------------------------------------------------------

  /** A sweep reads its certificate before it deletes, possibly long before. */
  ghost predicate CertifiedBefore(worlds: seq<World>, i: nat, scope: Key, first: nat)
    requires i < |worlds|
  {
    exists j :: 0 <= j <= i && Covers(worlds[j], scope, first)
  }

  ghost predicate StepOk(stream: Key, worlds: seq<World>, acts: seq<Act>, i: nat)
    requires i < |acts| && |worlds| == |acts| + 1
  {
    && Lawful(stream, worlds[i], acts[i]) && worlds[i + 1] == Do(worlds[i], acts[i])
    && (acts[i].Collect? ==> CertifiedBefore(worlds, i, acts[i].scope, acts[i].first))
  }

  /** A run of creates, trim proposals, sweeps and other traffic. */
  ghost predicate IsRun(stream: Key, worlds: seq<World>, acts: seq<Act>) {
    && Hosted(stream) && |worlds| == |acts| + 1
    && forall i :: 0 <= i < |acts| ==> StepOk(stream, worlds, acts, i)
  }

  lemma {:induction false} CertificateStays(stream: Key, worlds: seq<World>, acts: seq<Act>, i: nat, j: nat, k: Key)
    requires IsRun(stream, worlds, acts) && i <= j < |worlds| && k in worlds[i] && IsCertificate(k)
    ensures k in worlds[j]
    decreases j
  {
    hide IsCertificate, Lawful, Do, CertifiedBefore;
    if i < j {
      CertificateStays(stream, worlds, acts, i, j - 1, k);
      assert StepOk(stream, worlds, acts, j - 1);
      CertificateStep(stream, worlds[j - 1], acts[j - 1], k);
    }
  }

  /** Over every run, no floor of any scope ever falls. */
  lemma FloorNeverFalls(stream: Key, worlds: seq<World>, acts: seq<Act>, i: nat, j: nat, scope: Key,
                        f: Option<nat>, g: Option<nat>)
    requires IsRun(stream, worlds, acts) && i <= j < |worlds|
    requires IsFloor(worlds[i].Keys, CertPrefix(scope), f) && IsFloor(worlds[j].Keys, CertPrefix(scope), g)
    ensures f.Some? ==> g.Some? && f.value <= g.value
  {
    forall k | k in worlds[i].Keys && SeqOf(CertPrefix(scope), k).Some? ensures k in worlds[j].Keys {
      assert IsCertificate(k);
      CertificateStays(stream, worlds, acts, i, j, k);
    }
    FloorRises(worlds[i].Keys, worlds[j].Keys, CertPrefix(scope), f, g);
  }

  /** Each moment of the timeline is the stream's view of its world. */
  ghost predicate Shown(stream: Key, worlds: seq<World>, trace: Trace) {
    |trace| == |worlds| && forall i :: 0 <= i < |worlds| ==> IsView(stream, worlds[i], trace[i].snap)
  }

  /** Whatever creates, trims and certified sweeps do, the stream's timeline keeps the rules of a log. */
  lemma RunIsLegal(stream: Key, worlds: seq<World>, acts: seq<Act>, trace: Trace)
    requires IsRun(stream, worlds, acts) && Shown(stream, worlds, trace)
    ensures Legal(trace)
  {
    hide LegalStep, IsView, Lawful, Do, Covers, CertifiedBefore, Hosted;
    forall k | 0 < k < |trace| ensures LegalAt(trace, k) {
      var a := acts[k - 1];
      assert StepOk(stream, worlds, acts, k - 1);
      if a.Collect? { StillCovered(stream, worlds, acts, k - 1, a.scope, a.first); }
      ActIsLegal(stream, worlds[k - 1], a, trace[k - 1].snap, trace[k].snap);
    }
  }

  lemma StillCovered(stream: Key, worlds: seq<World>, acts: seq<Act>, i: nat, scope: Key, first: nat)
    requires IsRun(stream, worlds, acts) && i < |acts| && CertifiedBefore(worlds, i, scope, first)
    ensures Covers(worlds[i], scope, first)
  {
    var j :| 0 <= j <= i && Covers(worlds[j], scope, first);
    var f :| first <= f && IsFloor(worlds[j].Keys, CertPrefix(scope), Some(f));
    var g := FloorExists(worlds[i].Keys, CertPrefix(scope));
    FloorNeverFalls(stream, worlds, acts, j, i, scope, Some(f), g);
  }

  /** Every key set has a floor. */
  lemma {:induction false} FloorExists(keys: set<Key>, p: Key) returns (f: Option<nat>)
    ensures IsFloor(keys, p, f)
    decreases |keys|
  {
    f := None;
    if k :| k in keys && SeqOf(p, k).Some? {
      f := FloorExists(keys - {k}, p);
      if f.None? || f.value < SeqOf(p, k).value { f := SeqOf(p, k); }
    }
  }

  // ---- Same-slot agreement under trims and sweeps ------------------------------------------------

  /**
   Two concurrent calls, each seeing its own stretch of one run of creates, trims and certified sweeps:
   two receipts for one position are equal, and name the same event to the last byte.
  */
  lemma AgreementUnderTrims(
      stream: Key, worlds: seq<World>, acts: seq<Act>, story: Trace,
      t1: Trace, o1: nat, s1: nat, d1: Demand, r1: EventRef,
      t2: Trace, o2: nat, s2: nat, d2: Demand, r2: EventRef)
    requires IsRun(stream, worlds, acts) && Shown(stream, worlds, story)
    requires Within(t1, story, o1) && Verdict(t1, s1, d1, Receipt(r1))
    requires Within(t2, story, o2) && Verdict(t2, s2, d2, Receipt(r2))
    requires r1.at == r2.at
    ensures r1 == r2 && Desired(d1) == Desired(d2)
  {
    RunIsLegal(stream, worlds, acts, story);
    VerdictShared(t1, story, o1, s1, d1, r1);
    VerdictShared(t2, story, o2, s2, d2, r2);
    SameSlotAgreement(story, o1 + s1, d1, r1, o2 + s2, d2, r2);
  }

  // ---- Whole operations ----------------------------------------------------------------------------

  /** A whole certified sweep of the stream's scope, as `DeleteBelow` describes it, is one legal step. */
  lemma SweepIsLegal(stream: Key, w: World, gone: set<Key>, dataPrefix: Key, first: nat, scope: Key, s: Snapshot,
      t: Snapshot)
    requires Hosted(stream) && ValidIdentifier(dataPrefix + SeqComponent(0)) && !EndsInTrims(dataPrefix)
    requires (forall k :: k in gone ==> SweptKey(w.Keys, dataPrefix, first, k)) && Covers(w, scope, first)
    requires dataPrefix == LogPrefix(stream) ==> scope == stream
    requires IsView(stream, w, s) && IsView(stream, w - gone, t)
    ensures LegalStep(s, t) && s.floor == t.floor
  {
    SweepKeepsFloors(w.Keys, (w - gone).Keys, dataPrefix, first, stream, s.floor, t.floor);
    hide SweptKey, Covers, IsFloor, LogKey;
    forall n | n in s.slots
      ensures if n in t.slots then t.slots[n] == s.slots[n] else 0 < n < Floor(s)
    {
      var k := LogKey(stream, n);
      if k in gone {
        SweptHasShape(w.Keys, dataPrefix, first, k);
        SweptLogKey(stream, dataPrefix, first, n);
        CoveredFloor(w, stream, first, s.floor);
      }
    }
  }

  /** A trim proposal, as `ProposeTrim` describes it, is one legal step, with whatever others created meanwhile. */
  lemma ProposalIsLegal(stream: Key, w: World, u: World, s: Snapshot, t: Snapshot)
    requires forall k :: k in w ==> k in u && u[k] == w[k]
    requires IsView(stream, w, s) && IsView(stream, u, t)
    ensures LegalStep(s, t)
  {
    FloorRises(w.Keys, u.Keys, CertPrefix(stream), s.floor, t.floor);
    hide IsFloor, LogKey;
    assert forall n :: n in s.slots ==> LogKey(stream, n) in w;
  }

  /** Deleting a log key is legal exactly when the stream's own floor is above it, and it is not the genesis. */
  lemma DeleteLegalIff(stream: Key, w: World, n: Seq, s: Snapshot, t: Snapshot)
    requires LogKey(stream, n) in w && IsView(stream, w, s) && IsView(stream, w - {LogKey(stream, n)}, t)
    ensures LegalStep(s, t) <==> 0 < n < Floor(s)
  {
    var u := w - {LogKey(stream, n)};
    LogKeyIsNoCertificate(stream, n);
    forall k | k in w.Keys && SeqOf(CertPrefix(stream), k).Some? ensures k in u.Keys {
      assert IsCertificate(k);
    }
    FloorRises(w.Keys, u.Keys, CertPrefix(stream), s.floor, t.floor);
    forall m | m in s.slots && m != n ensures LogKey(stream, m) in u {
      if LogKey(stream, m) == LogKey(stream, n) { SamePrefix(LogPrefix(stream), LogPrefix(stream), m, n); }
    }
    hide IsFloor, LogKey;
    assert n in s.slots && n !in t.slots;
    assert forall m :: m in s.slots && m != n ==> m in t.slots && t.slots[m] == s.slots[m];
  }

  /**
   `delete_below` does not tie the data prefix to the certified scope: certified by one scope and given a
   stream's log as its data, it may delete what that stream still retains.
  */
  lemma ForeignSweepBreaksLog(w: World, s: Snapshot, t: Snapshot)
    requires w == map[CertPrefix("a") + SeqComponent(10) := Stored(0, Junk(0)), LogKey("b", 5) := Stored(0, Junk(1))]
    requires IsView("b", w, s) && IsView("b", w - {LogKey("b", 5)}, t)
    ensures Covers(w, "a", 10) && SweptShape(LogPrefix("b"), 10, LogKey("b", 5)) && !EndsInTrims(LogPrefix("b"))
    ensures !LegalStep(s, t)
  {
    hide SeqOf, SeqComponent, CertPrefix, LogPrefix, EndsInTrims, IsFloor, LegalStep, IsCertificate;
    ForeignPlaces();
    assert w.Keys == {CertPrefix("a") + SeqComponent(10), LogPrefix("b") + SeqComponent(5)};
    ForeignCovers(w, CertPrefix("a"), LogPrefix("b"), s.floor);
    DeleteLegalIff("b", w, 5, s, t);
    assert Covers(w, "a", 10);
  }

  lemma ForeignPlaces()
    ensures var p, q := CertPrefix("a"), LogPrefix("b");
      && SeqOf(p, p + SeqComponent(10)) == Some(10) && SeqOf(q, q + SeqComponent(5)) == Some(5)
      && SeqOf(p, q + SeqComponent(5)).None? && SeqOf(CertPrefix("b"), p + SeqComponent(10)).None?
      && !IsCertificate(q + SeqComponent(5)) && !EndsInTrims(q)
  {
    hide SeqOf, SeqComponent, IsCertificate, EndsInTrims;
    var p, q := CertPrefix("a"), LogPrefix("b");
    assert p == "a" + "/trims/" && q == "b" + "/log/" && CertPrefix("b") == "b" + "/trims/";
    SeqOfPrinted(p, 10);
    SeqOfPrinted(q, 5);
    OtherScope(p, q, 10, 5);
    OtherScope(p, CertPrefix("b"), 10, 5);
    LogKeyIsNoCertificate("b", 5);
    CertificateShape(q, 5);
  }

  lemma ForeignCovers(w: World, p: Key, q: Key, floor: Option<nat>)
    requires w.Keys == {p + SeqComponent(10), q + SeqComponent(5)}
    requires p == CertPrefix("a") && SeqOf(p, p + SeqComponent(10)) == Some(10) && SeqOf(p, q + SeqComponent(5)).None?
    requires SeqOf(CertPrefix("b"), p + SeqComponent(10)).None? && !IsCertificate(q + SeqComponent(5))
    requires IsFloor(w.Keys, CertPrefix("b"), floor)
    ensures IsFloor(w.Keys, CertPrefix("a"), Some(10)) && floor.None?
  {
    hide SeqOf, SeqComponent, CertPrefix;
    if floor.Some? { SeqOfPrinted(CertPrefix("b"), floor.value); }
  }
}
