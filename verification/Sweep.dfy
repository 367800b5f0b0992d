/**
 The quiesced chunk sweep of a whole namespace: pages of chunk objects, grouped by logical key, each
 key's control read once a page, and exactly the provably unreferenced chunks deleted.
*/
module Sweep {
  import opened Basics
  import opened Keys
  import opened Listing
  import opened ChunkPath
  import opened Deletes

  /** What an exact control read finds, when it answers. */
  datatype Control = Chunked(incarnation: nat, version: nat, digests: set<Key>) | Inline | Corrupt

  datatype Class = Referenced | Orphan | Unresolved

  datatype Report = Report(examined: nat, deleted: nat, remaining: nat, retained: nat)

  datatype Outcome = Finished(report: Report) | FenceRequired | Unavailable | KeyRefused

  function LastSegment(key: Key): Key {
    if PopSegment(key).Some? then PopSegment(key).value.1 else key
  }

  /** Logically retired: seq-shaped, not the genesis, below the namespace's certified floor. */
  predicate Retired(key: Key, floor: Option<nat>) {
    var n := ParseSeq(LastSegment(key));
    n.Some? && n.value > 0 && floor.Some? && n.value < floor.value
  }

  /** The chunk is named by a control that stands and decodes. */
  predicate NamedBy(p: Path, c: Control) {
    c.Chunked? && p.incarnation == c.incarnation && p.version == c.version && p.digest in c.digests
  }

  /** Of the keys that end in a padded number, exactly those above the genesis and below the floor are retired. */
  lemma RetiredIff(scope: Key, n: nat, floor: Option<nat>)
    requires n <= U64_MAX
    ensures Retired(scope + "/" + SeqComponent(n), floor) <==> floor.Some? && 0 < n < floor.value
    ensures Retired(SeqComponent(n), floor) <==> floor.Some? && 0 < n < floor.value
  {
    NoSlash(SeqComponent(n));
    PopPushed(scope, SeqComponent(n));
    ParsePrinted(n);
  }

  lemma NoSlash(s: Key)
    requires AllDigits(s)
    ensures '/' !in s && PopSegment(s).None?
  {
    forall i | 0 <= i < |s| ensures s[i] != '/' { assert IsDigit(s[i]); }
    HasSlash(s);
  }

  lemma HasSlash(s: Key)
    ensures PopSegment(s).Some? ==> '/' in s
  {
    if PopSegment(s).Some? {
      var (rest, segment) := PopSegment(s).value;
      assert (rest + "/" + segment)[|rest|] == '/';
    }
  }

  /** A chunk is named exactly when its path is what the control's generation and one of its digests print to. */
  lemma NamedIff(o: Key, c: Control)
    requires Parse(o).Some? && (c.Chunked? ==> c.incarnation <= U64_MAX && c.version <= U64_MAX)
    requires c.Chunked? ==> forall d :: d in c.digests ==> LowerHex(d) && |d| == 64
    ensures var p := Parse(o).value;
      NamedBy(p, c) <==>
        (c.Chunked? && exists d :: d in c.digests && o == Print(Path(p.namespace, p.key, c.incarnation, c.version, d)))
  {
    var p := Parse(o).value;
    PrintParse(o);
    if c.Chunked? {
      forall d | d in c.digests && o == Print(Path(p.namespace, p.key, c.incarnation, c.version, d))
        ensures NamedBy(p, c)
      {
        ParsePrint(Path(p.namespace, p.key, c.incarnation, c.version, d));
      }
    }
  }

  type Groups = map<Key, seq<Key>>

  class ChunkRoot {
    var objects: set<Key>
    const namespace: Key
    const controls: map<Key, Control>
    const floor: Option<nat>
    const fence: bool
    const pageLimit: nat
    const readFails: (nat, Key) -> bool    // control read of a key, during the n-th page
    const floorFails: nat -> bool
    const listFails: nat -> bool

    constructor (objects: set<Key>, namespace: Key, controls: map<Key, Control>, floor: Option<nat>, fence: bool,
                 pageLimit: nat, readFails: (nat, Key) -> bool, floorFails: nat -> bool, listFails: nat -> bool)
      ensures this.objects == objects && this.namespace == namespace && this.controls == controls
      ensures this.floor == floor && this.fence == fence && this.pageLimit == pageLimit
      ensures this.readFails == readFails && this.floorFails == floorFails && this.listFails == listFails
    {
      this.objects, this.namespace, this.controls, this.floor := objects, namespace, controls, floor;
      this.fence, this.pageLimit := fence, pageLimit;
      this.readFails, this.floorFails, this.listFails := readFails, floorFails, listFails;
    }

    predicate Ours(o: Key) { Parse(o).Some? && Parse(o).value.namespace == namespace }

    /** An object of ours whose key composes to the reserved fence path: it ends every sweep. */
    predicate Blocking(o: Key) { Ours(o) && Guarded(namespace, Parse(o).value.key) }

    /** How the `n`-th page classifies an object: what cannot be resolved is never an orphan. */
    function Classify(n: nat, o: Key): Class {
      if !Ours(o) then Unresolved else
      var p := Parse(o).value;
      if Retired(p.key, floor) then Orphan
      else if readFails(n, p.key) then Unresolved
      else if p.key !in controls then Orphan
      else if controls[p.key].Corrupt? then Unresolved
      else if NamedBy(p, controls[p.key]) then Referenced else Orphan
    }

    /** Nothing that stands needs the object: whatever reads fail, only such objects are ever deleted. */
    predicate Garbage(o: Key) {
      && Ours(o)
      && var p := Parse(o).value;
         Retired(p.key, floor) || p.key !in controls || !(controls[p.key].Corrupt? || NamedBy(p, controls[p.key]))
    }

    /** A standing, decodable control of a key above the floor names the object. */
    predicate Needed(o: Key) {
      && Ours(o)
      && var p := Parse(o).value;
         !Retired(p.key, floor) && p.key in controls && NamedBy(p, controls[p.key])
    }

    /** The page can tell: the path is ours, and the key's control, if it matters, was read and decodes. */
    predicate Readable(n: nat, o: Key) {
      && Ours(o)
      && var key := Parse(o).value.key;
         Retired(key, floor) || (!readFails(n, key) && !(key in controls && controls[key].Corrupt?))
    }

    lemma ClassMeans(n: nat, o: Key)
      ensures Classify(n, o).Referenced? <==> Readable(n, o) && Needed(o)
      ensures Classify(n, o).Orphan? <==> Readable(n, o) && Garbage(o)
      ensures Classify(n, o).Unresolved? <==> !Readable(n, o)
      ensures !(Needed(o) && Garbage(o))
      ensures Readable(n, o) ==> Needed(o) || Garbage(o)
    {
    }

    /** Those of the objects that the `n`-th page puts into class `c`. */
    ghost function InClass(n: nat, objects: set<Key>, c: Class): set<Key> {
      set o | o in objects && Classify(n, o) == c
    }

    /** The objects are counted by class, and the orphans among them listed once each. */
    ghost predicate Judged(n: nat, objects: set<Key>, referenced: nat, orphans: seq<Key>, unresolved: nat) {
      && Distinct(orphans) && (forall o :: o in orphans <==> o in objects && Classify(n, o).Orphan?)
      && referenced == |InClass(n, objects, Referenced)| && unresolved == |InClass(n, objects, Unresolved)|
    }

    lemma JudgedJoin(n: nat, a: set<Key>, r: nat, x: seq<Key>, u: nat, b: set<Key>, s: nat, y: seq<Key>, v: nat)
      requires a !! b && Judged(n, a, r, x, u) && Judged(n, b, s, y, v)
      ensures Judged(n, a + b, r + s, x + y, u + v)
    {
      hide Classify, InClass;
      ClassJoin(n, a, b, Referenced);
      ClassJoin(n, a, b, Unresolved);
      forall i, j | 0 <= i < |x| && 0 <= j < |y| ensures x[i] != y[j] {
        assert x[i] in x && y[j] in y;
      }
    }

    lemma ClassJoin(n: nat, a: set<Key>, b: set<Key>, c: Class)
      requires a !! b
      ensures |InClass(n, a + b, c)| == |InClass(n, a, c)| + |InClass(n, b, c)|
    {
      hide Classify;
      assert InClass(n, a + b, c) == InClass(n, a, c) + InClass(n, b, c);
      SizeJoin(InClass(n, a, c), InClass(n, b, c));
    }

    lemma JudgedSnoc(n: nat, s: seq<Key>, i: nat, r: nat, x: seq<Key>)
      requires Distinct(s) && i < |s| && Judged(n, Elements(s[..i]), r, x, 0)
      ensures Classify(n, s[i]).Referenced? ==> Judged(n, Elements(s[..i + 1]), r + 1, x, 0)
      ensures Classify(n, s[i]).Orphan? ==> Judged(n, Elements(s[..i + 1]), r, x + [s[i]], 0)
    {
      hide Classify, Judged;
      ElementsSnoc(s, i);
      JudgedAlike(n, {s[i]}, Classify(n, s[i]));
      assert x + [] == x;
      if Classify(n, s[i]).Referenced? {
        JudgedJoin(n, Elements(s[..i]), r, x, 0, {s[i]}, 1, [], 0);
      } else if Classify(n, s[i]).Orphan? {
        JudgedJoin(n, Elements(s[..i]), r, x, 0, {s[i]}, 0, [s[i]], 0);
      }
    }

    lemma JudgedDistinct(n: nat, objects: set<Key>, r: nat, x: seq<Key>, u: nat)
      requires Judged(n, objects, r, x, u)
      ensures Distinct(x)
    {
    }

    lemma ClassUnderKey(n: nat, key: Key, o: Key)
      requires Ours(o) && Parse(o).value.key == key
      ensures !Retired(key, floor) && (readFails(n, key) || (key in controls && controls[key].Corrupt?)) ==>
        Classify(n, o).Unresolved?
      ensures Retired(key, floor) || !(readFails(n, key) || (key in controls && controls[key].Corrupt?)) ==>
        Classify(n, o) == if !Retired(key, floor) && key in controls && NamedBy(Parse(o).value, controls[key])
                          then Referenced else Orphan
    {
    }

    lemma JudgedAlike(n: nat, objects: set<Key>, c: Class)
      requires forall o :: o in objects ==> Classify(n, o) == c
      ensures c.Referenced? ==> Judged(n, objects, |objects|, [], 0)
      ensures c.Unresolved? ==> Judged(n, objects, 0, [], |objects|)
      ensures c.Orphan? ==> forall o :: objects == {o} ==> Judged(n, objects, 0, [o], 0)
    {
      hide Classify;
      assert forall d :: InClass(n, objects, d) == if c == d then objects else {};
    }

    /** The objects of ours are under their keys, each once. */
    ghost predicate Grouped(groups: Groups, objects: set<Key>) {
      && (forall k :: k in groups ==> groups[k] != [] && Distinct(groups[k]))
      && (forall k, o :: k in groups && o in groups[k] ==> o in objects && Ours(o) && Parse(o).value.key == k)
      && (forall o :: o in objects && Ours(o) ==> Parse(o).value.key in groups && o in groups[Parse(o).value.key])
    }

    ghost function Strange(objects: set<Key>): set<Key> { set o | o in objects && !Ours(o) }

    lemma GroupedAdd(groups: Groups, objects: set<Key>, o: Key)
      requires Grouped(groups, objects) && o !in objects
      ensures !Ours(o) ==>
        Grouped(groups, objects + {o}) && |Strange(objects + {o})| == |Strange(objects)| + 1
      ensures Ours(o) ==>
        var k := Parse(o).value.key;
        && Grouped(groups[k := (if k in groups then groups[k] else []) + [o]], objects + {o})
        && Strange(objects + {o}) == Strange(objects)
    {
      hide Parse, Grouped, Distinct;
      if Ours(o) {
        var k := Parse(o).value.key;
        if k in groups { MembersAdd(groups, objects, o, k); } else { MembersNew(groups, objects, o, k); }
        assert Strange(objects + {o}) == Strange(objects);
      } else {
        GroupedSkip(groups, objects, o);
        assert Strange(objects + {o}) == Strange(objects) + {o};
      }
    }

    lemma GroupedSkip(groups: Groups, objects: set<Key>, o: Key)
      requires Grouped(groups, objects) && !Ours(o)
      ensures Grouped(groups, objects + {o})
    {
      hide Parse, Distinct;
    }

    lemma MembersNew(groups: Groups, objects: set<Key>, o: Key, k: Key)
      requires Grouped(groups, objects) && Ours(o) && Parse(o).value.key == k && k !in groups
      ensures Grouped(groups[k := [] + [o]], objects + {o})
    {
      hide Parse;
      assert [] + [o] == [o];
    }

    lemma MembersAdd(groups: Groups, objects: set<Key>, o: Key, k: Key)
      requires Grouped(groups, objects) && Ours(o) && Parse(o).value.key == k && o !in objects && k in groups
      ensures Grouped(groups[k := groups[k] + [o]], objects + {o})
    {
      hide Parse, Distinct;
      var members := groups[k] + [o];
      DistinctAdd(groups[k], o);
      assert forall x :: x in members <==> x in groups[k] || x == o;
      hide Ours;
    }

    /** Every object of the page is grouped once under its key, or counted unresolved at once. */
    method Group(page: seq<Key>) returns (groups: Groups, unresolved: nat)
      requires Distinct(page)
      ensures Grouped(groups, Elements(page)) && unresolved == |Strange(Elements(page))|
    {
      hide Parse, Grouped, Strange, Elements;
      groups, unresolved := map[], 0;
      NoGroups();
      for i := 0 to |page|
        invariant Grouped(groups, Elements(page[..i])) && unresolved == |Strange(Elements(page[..i]))|
      {
        ElementsSnoc(page, i);
        GroupedAdd(groups, Elements(page[..i]), page[i]);
        if Ours(page[i]) {
          var key := Parse(page[i]).value.key;
          groups := groups[key := (if key in groups then groups[key] else []) + [page[i]]];
        } else {
          unresolved := unresolved + 1;
        }
      }
      assert page[..|page|] == page;
    }

    lemma NoGroups()
      ensures Grouped(map[], Elements([])) && Strange(Elements([])) == {}
    {
      assert Elements([]) == {};
    }

    /** A group is what the page holds of its key. */
    lemma GroupOf(groups: Groups, objects: set<Key>, key: Key)
      requires Grouped(groups, objects) && key in groups
      ensures groups[key] != [] && Distinct(groups[key])
      ensures forall o :: o in groups[key] ==> Ours(o) && Parse(o).value.key == key
      ensures Elements(groups[key]) == set o | o in objects && Ours(o) && Parse(o).value.key == key
      ensures Guarded(namespace, key) ==> exists o :: o in objects && Blocking(o)
    {
      hide Parse, Guarded;
      assert groups[key][0] in groups[key];
      assert Guarded(namespace, key) ==> Blocking(groups[key][0]);
    }

    lemma AllGrouped(groups: Groups, objects: set<Key>)
      requires Grouped(groups, objects)
      ensures forall o :: o in objects && Ours(o) ==> Parse(o).value.key in groups
    {
      hide Parse;
    }

    /** One key's chunks, judged by the one control read that the page makes for it. */
    method ClassifyKey(n: nat, key: Key, members: seq<Key>)
        returns (referenced: nat, orphans: seq<Key>, unresolved: nat)
      requires Distinct(members)
      requires forall i :: 0 <= i < |members| ==> Ours(members[i]) && Parse(members[i]).value.key == key
      ensures Judged(n, Elements(members), referenced, orphans, unresolved)
    {
      hide Parse, Retired, NamedBy, Classify, Judged;
      forall o | o in members { ClassUnderKey(n, key, o); }
      referenced, orphans, unresolved := 0, [], 0;
      var retired := Retired(key, floor);
      if !retired && (readFails(n, key) || (key in controls && controls[key].Corrupt?)) {
        DistinctSize(members);
        JudgedAlike(n, Elements(members), Unresolved);
        unresolved := |members|;
        return;
      }
      JudgedAlike(n, {}, Referenced);
      assert Elements(members[..0]) == {};
      for i := 0 to |members|
        invariant Judged(n, Elements(members[..i]), referenced, orphans, 0)
      {
        JudgedSnoc(n, members, i, referenced, orphans);
        if !retired && key in controls && NamedBy(Parse(members[i]).value, controls[key]) {
          referenced := referenced + 1;
        } else {
          orphans := orphans + [members[i]];
        }
      }
      assert members[..|members|] == members;
    }

    /** One page: every object is counted once in its class, and the orphans are exactly those of the page. */
    method ClassifyPage(n: nat, page: seq<Key>)
      returns (refused: bool, referenced: nat, orphans: seq<Key>, unresolved: nat)
      requires Distinct(page)
      ensures refused <==> exists o :: o in page && Blocking(o)
      ensures !refused ==> Judged(n, Elements(page), referenced, orphans, unresolved)
    {
      hide Parse, Classify, Guarded, Retired, Judged, Grouped, Distinct, Elements;
      var groups;
      groups, unresolved := Group(page);
      refused, referenced, orphans := false, 0, [];
      ghost var objects := Elements(page);
      var rest := groups;
      ghost var judged := Strange(objects);
      StrangersUnresolved(n, judged);
      AllGrouped(groups, objects);
      while rest != map[]
        invariant forall k :: k in rest ==> k in groups && rest[k] == groups[k]
        invariant judged == set o | o in objects && (!Ours(o) || Parse(o).value.key !in rest)
        invariant forall o :: o in judged ==> !Blocking(o)
        invariant Judged(n, judged, referenced, orphans, unresolved)
        decreases |rest|
      {
        var key :| key in rest;
        GroupOf(groups, objects, key);
        if Guarded(namespace, key) {
          InElements(page);
          refused := true;
          return;
        }
        var some, more, none := ClassifyKey(n, key, groups[key]);
        JudgedJoin(n, judged, referenced, orphans, unresolved, Elements(groups[key]), some, more, none);
        judged := judged + Elements(groups[key]);
        referenced, orphans, unresolved := referenced + some, orphans + more, unresolved + none;
        rest := rest - {key};
      }
      assert judged == objects;
      InElements(page);
    }

    /** Paths of another shape or namespace are unresolved. */
    lemma StrangersUnresolved(n: nat, objects: set<Key>)
      requires forall o :: o in objects ==> !Ours(o)
      ensures Judged(n, objects, 0, [], |objects|)
    {
      JudgedAlike(n, objects, Unresolved);
    }

    /** Delete the orphans one by one; a failed delete is left for the next run. */
    method DeleteOrphans(orphans: seq<Key>, fates: Key -> Fate) returns (deleted: nat, failed: nat)
      requires Distinct(orphans)
      modifies this`objects
      ensures objects == old(objects) - GoneOf(orphans, fates)
      ensures deleted == |DoneOf(orphans, fates)| && failed == |FailedOf(orphans, fates)|
    {
      hide GoneOf, DoneOf, FailedOf;
      deleted, failed := 0, 0;
      NoFates(fates);
      for i := 0 to |orphans|
        invariant objects == old(objects) - GoneOf(orphans[..i], fates)
        invariant deleted == |DoneOf(orphans[..i], fates)| && failed == |FailedOf(orphans[..i], fates)|
      {
        DoneSnoc(orphans, i, fates);
        FailedSnoc(orphans, i, fates);
        GoneSnoc(orphans, i, fates);
        if !fates(orphans[i]).FailedKept? { objects := objects - {orphans[i]}; }
        if fates(orphans[i]).Done? { deleted := deleted + 1; } else { failed := failed + 1; }
      }
      assert orphans[..|orphans|] == orphans;
    }

    // What became of the objects, each judged by the page `at` says.

    ghost function Kept(at: map<Key, nat>): set<Key> { set o | o in at && Classify(at[o], o).Referenced? }

    ghost function Deleted(at: map<Key, nat>, fates: Key -> Fate): set<Key> {
      set o | o in at && Classify(at[o], o).Orphan? && fates(o).Done?
    }

    /** Unresolved, or an orphan whose delete was not answered. */
    ghost function Left(at: map<Key, nat>, fates: Key -> Fate): set<Key> {
      set o | o in at && (Classify(at[o], o).Unresolved? || (Classify(at[o], o).Orphan? && !fates(o).Done?))
    }

    /** The objects gone from the store: also those whose delete took effect without an answer. */
    ghost function Vanished(at: map<Key, nat>, fates: Key -> Fate): set<Key> {
      set o | o in at && Classify(at[o], o).Orphan? && !fates(o).FailedKept?
    }

    /** The report counts each object judged so far once, as what became of it. */
    ghost predicate Accounts(r: Report, at: map<Key, nat>, fates: Key -> Fate) {
      && r.examined == |at.Keys| && r.retained == |Kept(at)|
      && r.deleted == |Deleted(at, fates)| && r.remaining == |Left(at, fates)|
    }

    function Mark(at: map<Key, nat>, n: nat, page: seq<Key>): map<Key, nat> {
      at + map o | o in page :: n
    }

    /** One page of the sweep. */
    method SweepPage(n: nat, page: seq<Key>, fates: Key -> Fate, report: Report, ghost at: map<Key, nat>)
      returns (refused: bool, r: Report)
      requires Distinct(page) && Accounts(report, at, fates) && forall o :: o in page ==> o !in at
      modifies this`objects
      ensures refused <==> exists o :: o in page && Blocking(o)
      ensures refused ==> objects == old(objects)
      ensures !refused ==> Accounts(r, Mark(at, n, page), fates)
      ensures !refused ==> objects == old(objects) - (Vanished(Mark(at, n, page), fates) - Vanished(at, fates))
    {
      hide Classify, Blocking, Accounts, Vanished, Mark, Elements, Distinct, Judged, GoneOf, DoneOf, FailedOf;
      r := report;
      var referenced, orphans, unresolved;
      refused, referenced, orphans, unresolved := ClassifyPage(n, page);
      if refused { return; }
      JudgedDistinct(n, Elements(page), referenced, orphans, unresolved);
      var deleted, failed := DeleteOrphans(orphans, fates);
      r := Report(report.examined + |page|, report.deleted + deleted,
                  report.remaining + unresolved + failed, report.retained + referenced);
      DistinctSize(page);
      PageAccounts(n, page, fates, report, at, referenced, orphans, unresolved);
    }

    lemma PageAccounts(n: nat, page: seq<Key>, fates: Key -> Fate, r: Report, at: map<Key, nat>,
                       referenced: nat, orphans: seq<Key>, unresolved: nat)
      requires Accounts(r, at, fates) && forall o :: o in page ==> o !in at
      requires Judged(n, Elements(page), referenced, orphans, unresolved)
      ensures Accounts(
        Report(r.examined + |Elements(page)|, r.deleted + |DoneOf(orphans, fates)|,
               r.remaining + unresolved + |FailedOf(orphans, fates)|, r.retained + referenced),
        Mark(at, n, page), fates)
      ensures Vanished(Mark(at, n, page), fates) - Vanished(at, fates) == GoneOf(orphans, fates)
    {
      hide Classify, Kept, Deleted, Left, Vanished, GoneOf, DoneOf, FailedOf;
      assert Mark(at, n, page).Keys == at.Keys + Elements(page);
      MarkKept(n, page, at);
      MarkDeleted(n, page, fates, at, orphans);
      MarkLeft(n, page, fates, at, orphans);
      MarkVanished(n, page, fates, at, orphans);
    }

    lemma MarkKept(n: nat, page: seq<Key>, at: map<Key, nat>)
      requires forall o :: o in page ==> o !in at
      ensures |Kept(Mark(at, n, page))| == |Kept(at)| + |InClass(n, Elements(page), Referenced)|
    {
      hide Classify;
      assert Kept(Mark(at, n, page)) == Kept(at) + InClass(n, Elements(page), Referenced);
    }

    lemma MarkDeleted(n: nat, page: seq<Key>, fates: Key -> Fate, at: map<Key, nat>, orphans: seq<Key>)
      requires forall o :: o in page ==> o !in at
      requires forall o :: o in orphans <==> o in Elements(page) && Classify(n, o).Orphan?
      ensures |Deleted(Mark(at, n, page), fates)| == |Deleted(at, fates)| + |DoneOf(orphans, fates)|
    {
      hide Classify;
      assert Deleted(Mark(at, n, page), fates) == Deleted(at, fates) + DoneOf(orphans, fates);
    }

    lemma MarkLeft(n: nat, page: seq<Key>, fates: Key -> Fate, at: map<Key, nat>, orphans: seq<Key>)
      requires forall o :: o in page ==> o !in at
      requires forall o :: o in orphans <==> o in Elements(page) && Classify(n, o).Orphan?
      ensures |Left(Mark(at, n, page), fates)| ==
        |Left(at, fates)| + (|InClass(n, Elements(page), Unresolved)| + |FailedOf(orphans, fates)|)
    {
      hide InClass, FailedOf, Left;
      var strange, failed := InClass(n, Elements(page), Unresolved), FailedOf(orphans, fates);
      LeftGrows(n, page, fates, at, orphans);
      SizeJoin(strange, failed);
      SizeJoin(Left(at, fates), strange + failed);
    }

    lemma LeftGrows(n: nat, page: seq<Key>, fates: Key -> Fate, at: map<Key, nat>, orphans: seq<Key>)
      requires forall o :: o in page ==> o !in at
      requires forall o :: o in orphans <==> o in Elements(page) && Classify(n, o).Orphan?
      ensures var strange, failed := InClass(n, Elements(page), Unresolved), FailedOf(orphans, fates);
        && strange !! failed && Left(at, fates) !! strange + failed
        && Left(Mark(at, n, page), fates) == Left(at, fates) + (strange + failed)
    {
      hide Classify;
    }

    lemma MarkVanished(n: nat, page: seq<Key>, fates: Key -> Fate, at: map<Key, nat>, orphans: seq<Key>)
      requires forall o :: o in page ==> o !in at
      requires forall o :: o in orphans <==> o in Elements(page) && Classify(n, o).Orphan?
      ensures Vanished(at, fates) <= Vanished(Mark(at, n, page), fates)
      ensures Vanished(Mark(at, n, page), fates) - Vanished(at, fates) == GoneOf(orphans, fates)
    {
      hide Classify;
    }

    /** What a sweep has done up to the cursor. */
    ghost predicate Progress(before: set<Key>, objects: set<Key>, after: Key, at: map<Key, nat>, fates: Key -> Fate,
                             r: Report)
    {
      && at.Keys == Passed(before, after) && Accounts(r, at, fates)
      && objects == before - Vanished(at, fates)
      && forall o :: o in at ==> !Blocking(o)
    }

    lemma ProgressPage(before: set<Key>, objects: set<Key>, after: Key, at: map<Key, nat>, fates: Key -> Fate,
                       r: Report, n: nat, page: seq<Key>, now: set<Key>, s: Report)
      requires Progress(before, objects, after, at, fates, r) && page != [] && Distinct(page)
      requires (forall o :: o in page ==> o in objects && o !in at && !Blocking(o))
      requires Accounts(s, Mark(at, n, page), fates)
      requires now == objects - (Vanished(Mark(at, n, page), fates) - Vanished(at, fates))
      requires Passed(before, page[|page| - 1]) == Passed(before, after) + Elements(page)
      ensures Progress(before, now, page[|page| - 1], Mark(at, n, page), fates, s)
    {
      hide Accounts, Blocking, Passed, Classify;
    }

    lemma Ahead(before: set<Key>, objects: set<Key>, after: Key, at: map<Key, nat>, fates: Key -> Fate, r: Report)
      requires Progress(before, objects, after, at, fates, r)
      ensures objects <= before && (forall o :: o in before && Past(after, o) ==> o in objects && o !in at)
    {
      hide Classify;
    }

    /** What the figures of a finished sweep mean for what was there before and what is there now. */
    ghost predicate Figures(before: set<Key>, objects: set<Key>, fates: Key -> Fate, r: Report) {
      && r.examined == |before| && r.examined == r.retained + r.deleted + r.remaining
      && (r.remaining == 0 ==> objects == set o | o in before && !Garbage(o))
      && ((forall n, o :: o in before ==> Readable(n, o)) ==>
            && r.retained == |set o | o in before && Needed(o)|
            && r.deleted == |set o | o in before && Garbage(o) && fates(o).Done?|
            && r.remaining == |set o | o in before && Garbage(o) && !fates(o).Done?|)
      && ((forall o :: fates(o).Done?) ==> r.deleted == |before - objects|)
    }

    lemma FiguresMean(before: set<Key>, at: map<Key, nat>, fates: Key -> Fate, r: Report)
      requires at.Keys == before && Accounts(r, at, fates)
      ensures Figures(before, before - Vanished(at, fates), fates, r)
    {
      hide Classify, Garbage, Needed, Readable, Kept, Deleted, Left, Vanished;
      AddsUp(at, fates);
      AllLeft(at, fates);
      if forall n, o :: o in before ==> Readable(n, o) { AllReadable(at, fates); }
      AllDone(at, fates);
    }

    lemma AddsUp(at: map<Key, nat>, fates: Key -> Fate)
      ensures |at.Keys| == |Kept(at)| + |Deleted(at, fates)| + |Left(at, fates)|
    {
      hide Classify;
      SizeJoin(Kept(at), Deleted(at, fates));
      SizeJoin(Kept(at) + Deleted(at, fates), Left(at, fates));
      assert at.Keys == Kept(at) + Deleted(at, fates) + Left(at, fates);
    }

    lemma AllLeft(at: map<Key, nat>, fates: Key -> Fate)
      ensures |Left(at, fates)| == 0 ==> at.Keys - Vanished(at, fates) == set o | o in at.Keys && !Garbage(o)
    {
      hide Classify, Garbage, Needed, Readable;
      forall n, o { ClassMeans(n, o); }
      if |Left(at, fates)| == 0 { assert Left(at, fates) == {} && forall o :: o in at ==> o !in Left(at, fates); }
    }

    lemma AllReadable(at: map<Key, nat>, fates: Key -> Fate)
      requires forall n, o :: o in at.Keys ==> Readable(n, o)
      ensures Kept(at) == set o | o in at.Keys && Needed(o)
      ensures Deleted(at, fates) == set o | o in at.Keys && Garbage(o) && fates(o).Done?
      ensures Left(at, fates) == set o | o in at.Keys && Garbage(o) && !fates(o).Done?
    {
      hide Classify, Garbage, Needed, Readable;
      forall n, o { ClassMeans(n, o); }
    }

    lemma AllDone(at: map<Key, nat>, fates: Key -> Fate)
      ensures (forall o :: fates(o).Done?) ==> at.Keys - (at.Keys - Vanished(at, fates)) == Deleted(at, fates)
    {
      hide Classify;
    }

    /**
     The sweep.  Every object is judged by one page and counted once: retained if referenced, deleted if its
     delete was answered, otherwise remaining.  Whatever fails on the way, only garbage is ever deleted.
    */
    method SweepChunks(fates: Key -> Fate) returns (r: Outcome, ghost at: map<Key, nat>)
      requires pageLimit > 0 && "" !in objects
      modifies this`objects
      ensures objects == old(objects) - Vanished(at, fates) && forall o :: o in Vanished(at, fates) ==> Garbage(o)
      ensures r.FenceRequired? <==> !fence
      ensures r.FenceRequired? ==> objects == old(objects)
      ensures r.KeyRefused? ==> exists o :: o in old(objects) && Blocking(o)
      ensures r.Unavailable? ==> exists n :: listFails(n) || floorFails(n)
      ensures r.Finished? ==> at.Keys == old(objects) && Accounts(r.report, at, fates)
      ensures r.Finished? ==> forall o :: o in old(objects) ==> !Blocking(o)
      ensures r.Finished? ==> Figures(old(objects), objects, fates, r.report)
    {
      at := map[];
      NothingJudged(objects, fates);
      hide Garbage, Classify, Needed, Readable, Blocking, IsPage, Less, Accounts, Figures, Vanished, Progress, Mark,
        Elements, Distinct, Passed;
      if !fence { return FenceRequired, at; }
      var report := Report(0, 0, 0, 0);
      var after, n := "", 0;
      while true
        invariant Progress(old(objects), objects, after, at, fates, report)
        decreases |Beyond(old(objects), after)|
      {
        Ahead(old(objects), objects, after, at, fates, report);
        WhatIsGone(old(objects), objects, after, at, fates, report);
        if listFails(n) { return Unavailable, at; }
        var page := Page(objects, after, pageLimit);
        PageFacts(old(objects), objects, after, pageLimit, page);
        if page == [] {
          FiguresMean(old(objects), at, fates, report);
          return Finished(report), at;
        }
        if floorFails(n) { return Unavailable, at; }
        ghost var was, earlier := objects, report;
        NotYet(old(objects), after, page, at);
        var refused;
        refused, report := SweepPage(n, page, fates, report, at);
        if refused { return KeyRefused, at; }
        ProgressPage(old(objects), was, after, at, fates, earlier, n, page, objects, report);
        BeyondShrinks(old(objects), after, page[|page| - 1]);
        at, after := Mark(at, n, page), page[|page| - 1];
        if |page| < pageLimit {
          WhatIsGone(old(objects), objects, after, at, fates, report);
          FiguresMean(old(objects), at, fates, report);
          return Finished(report), at;
        }
        n := n + 1;
      }
    }

    lemma NothingJudged(objects: set<Key>, fates: Key -> Fate)
      requires "" !in objects
      ensures Progress(objects, objects, "", map[], fates, Report(0, 0, 0, 0)) && Vanished(map[], fates) == {}
    {
      hide Classify;
      NothingPassed(objects);
      assert Kept(map[]) == {} && Deleted(map[], fates) == {} && Left(map[], fates) == {};
    }

    lemma WhatIsGone(before: set<Key>, objects: set<Key>, after: Key, at: map<Key, nat>, fates: Key -> Fate, r: Report)
      requires Progress(before, objects, after, at, fates, r)
      ensures objects == before - Vanished(at, fates) && forall o :: o in Vanished(at, fates) ==> Garbage(o)
      ensures at.Keys == Passed(before, after) && Accounts(r, at, fates) && forall o :: o in at ==> !Blocking(o)
    {
      hide Classify, Garbage, Needed, Readable;
      forall n, o { ClassMeans(n, o); }
    }

    lemma NotYet(before: set<Key>, after: Key, page: seq<Key>, at: map<Key, nat>)
      requires at.Keys == Passed(before, after) && forall o :: o in page ==> Past(after, o)
      ensures forall o :: o in page ==> o !in at
    {
    }

    /** With nothing failing, nothing unreadable and no reserved path, a sweep finishes and leaves nothing behind. */
    method SweepCleanly(fates: Key -> Fate) returns (r: Outcome)
      requires pageLimit > 0 && "" !in objects && fence && (forall n :: !listFails(n) && !floorFails(n))
      requires forall o :: fates(o).Done?
      requires forall o :: o in objects ==> !Blocking(o) && forall n :: Readable(n, o)
      modifies this`objects
      ensures r.Finished? && r.report.remaining == 0
      ensures objects == set o | o in old(objects) && Needed(o)
      ensures r.report.retained == |objects| && r.report.deleted == |old(objects) - objects|
    {
      hide Classify, Garbage, Needed, Readable, Blocking, Accounts;
      ghost var at;
      r, at := SweepChunks(fates);
      forall n, o { ClassMeans(n, o); }
      assert (set o | o in old(objects) && Garbage(o) && !fates(o).Done?) == {};
      assert objects == set o | o in old(objects) && Needed(o);
    }
  }

  /** What the cursor has passed. */
  ghost function Passed(keys: set<Key>, after: Key): set<Key> { set o | o in keys && !Past(after, o) }

  lemma NothingPassed(keys: set<Key>)
    requires "" !in keys
    ensures Passed(keys, "") == {}
  {
  }

  /** A page adds its own objects, each once, to what has been passed; an unfilled page ends the walk. */
  lemma PageFacts(before: set<Key>, objects: set<Key>, after: Key, limit: nat, page: seq<Key>)
    requires IsPage(objects, after, limit, page) && limit > 0 && objects <= before
    requires forall o :: o in before && Past(after, o) ==> o in objects
    ensures page == [] ==> Passed(before, after) == before
    ensures Distinct(page)
    ensures forall o :: o in page ==> o in objects
    ensures page != [] ==>
      var last := page[|page| - 1];
      && Past(after, last)
      && Passed(before, last) == Passed(before, after) + Elements(page)
      && |Passed(before, last)| == |Passed(before, after)| + |page|
      && (|page| < limit ==> Passed(before, last) == before)
      && (forall o :: o in before && Past(last, o) ==> Past(after, o) && o !in page)
  {
    forall i, j | 0 <= i < j < |page| ensures page[i] != page[j] { LessIrreflexive(page[i]); }
    forall o | o in before
      ensures page == [] ==> !Past(after, o)
      ensures page != [] ==>
        && (Past(page[|page| - 1], o) <==> Past(after, o) && o !in page)
        && (|page| < limit ==> !Past(page[|page| - 1], o))
    {
      if page != [] && (o in objects || Past(page[|page| - 1], o)) {
        PastLast(before, objects, after, limit, page, o);
      }
    }
    if page != [] {
      DistinctSize(page);
      assert Passed(before, after) !! Elements(page);
    }
  }

  lemma PastLast(before: set<Key>, objects: set<Key>, after: Key, limit: nat, page: seq<Key>, o: Key)
    requires IsPage(objects, after, limit, page) && page != [] && o in before && objects <= before
    requires forall k :: k in before && Past(after, k) ==> k in objects
    ensures Past(page[|page| - 1], o) <==> Past(after, o) && o !in page
    ensures |page| < limit ==> !Past(page[|page| - 1], o)
  {
    var last := page[|page| - 1];
    if Past(last, o) { LessTransitive(after, last, o); }
    if o in objects { NextInPage(objects, after, limit, page, |page|, o); }
    if o in page {
      var i :| 0 <= i < |page| && page[i] == o;
      LessTotal(o, last);
    }
  }
}
