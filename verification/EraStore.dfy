/**
 One era-guarded object (a lineage head, or the control object of a value) together with the
 counter and the tombstone that live beside it.

 The store's entity tag is a function of the stored bytes, so a cell is its own tag: If-Match
 compares whole cells, and a cell deleted and written again matches an old token.  Everything
 that rules this out in an open era is proved below from the log of effects.
*/
module EraStore {
  import opened Basics

  /** `era` is the incarnation, `rank` the generation of a head or the version of a value. */
  datatype Cell<+B> = Cell(era: nat, rank: nat, body: B)

  datatype Tombstone = Tombstone(era: nat, rank: nat)

  /** What actually happened to the guarded object, in order; `at` is the counter at that instant. */
  datatype Effect<+B> =
    | Wrote(who: nat, cell: Cell<B>, over: Option<Cell<B>>, at: nat)
    | Erased(cell: Cell<B>, at: nat)

  datatype Store<+B> = Store(
    cell: Option<Cell<B>>,
    counter: Option<nat>,
    tomb: Option<Tombstone>,
    log: seq<Effect<B>>)

  /** The conditional requests of the protocol. */
  datatype Write<+B> =
    | PutCell(who: nat, cell: Cell<B>, over: Option<Cell<B>>)  // None: If-None-Match, Some: If-Match
    | DeleteCell(cell: Cell<B>)                               // If-Match
    | PutTomb(tomb: Tombstone)                                // If-None-Match
    | PutCounter(from: Option<nat>)                           // None: create at 1, Some(v): v -> v + 1

  /** An absent counter is incarnation 0, the first lifetime. */
  function Era<B>(st: Store<B>): nat {
    if st.counter.Some? then st.counter.value else 0
  }

  predicate Applies<B(==)>(st: Store<B>, w: Write<B>) {
    match w
    case PutCell(_, _, over) => st.cell == over
    case DeleteCell(cell) => st.cell == Some(cell)
    case PutTomb(_) => st.tomb.None?
    case PutCounter(from) => st.counter == from
  }

  /** The effect of a request whose precondition is checked atomically with it. */
  function Apply<B(==)>(st: Store<B>, w: Write<B>): Store<B> {
    if !Applies(st, w) then st else
    match w
    case PutCell(who, cell, over) =>
      st.(cell := Some(cell), log := st.log + [Wrote(who, cell, over, Era(st))])
    case DeleteCell(cell) => st.(cell := None, log := st.log + [Erased(cell, Era(st))])
    case PutTomb(tomb) => st.(tomb := Some(tomb))
    case PutCounter(from) => st.(counter := Some(if from.Some? then from.value + 1 else 1))
  }

  // ---- Legal logs ---------------------------------------------------------

  function After<B>(e: Effect<B>): Option<Cell<B>> {
    if e.Wrote? then Some(e.cell) else None
  }

  function Before<B>(log: seq<Effect<B>>, k: nat): Option<Cell<B>>
    requires k <= |log|
  {
    if k == 0 then None else After(log[k - 1])
  }

  /** A replacement stays in its era and never moves its rank back; only closed eras are erased. */
  ghost predicate LegalAt<B>(log: seq<Effect<B>>, k: nat)
    requires k < |log|
  {
    && (k > 0 ==> log[k - 1].at <= log[k].at)
    && match log[k]
       case Wrote(_, cell, over, at) =>
         && over == Before(log, k)
         && cell.era <= at
         && (over.Some? ==> over.value.era == cell.era && over.value.rank <= cell.rank)
       case Erased(cell, at) => Before(log, k) == Some(cell) && cell.era < at
  }

  ghost predicate Legal<B>(log: seq<Effect<B>>) {
    forall k :: 0 <= k < |log| ==> LegalAt(log, k)
  }

  predicate AdvancesAt<B>(log: seq<Effect<B>>, k: nat)
    requires k < |log|
  {
    log[k].Wrote? && log[k].over.Some? ==> log[k].over.value.rank < log[k].cell.rank
  }

  /** Every replacement moves the rank forward. */
  ghost predicate Advancing<B>(log: seq<Effect<B>>) {
    forall k :: 0 <= k < |log| ==> AdvancesAt(log, k)
  }

  /** A write is open when the counter named its own era at the instant it landed. */
  predicate OpenAt<B>(log: seq<Effect<B>>, k: nat)
    requires k < |log|
  {
    log[k].Wrote? && log[k].at == log[k].cell.era
  }

  ghost predicate StoreInv<B>(st: Store<B>) {
    && Legal(st.log)
    && st.cell == Before(st.log, |st.log|)
    && (st.log != [] ==> st.log[|st.log| - 1].at <= Era(st))
    && (st.counter.Some? ==> st.counter.value > 0 && st.tomb.Some?)
    && (st.tomb.Some? ==> st.log != [])
  }

  /** What every step of every client keeps: eras, witnesses and history only grow. */
  ghost predicate Grows<B>(a: Store<B>, b: Store<B>) {
    && Era(a) <= Era(b)
    && (a.tomb.Some? ==> b.tomb == a.tomb)
    && a.log <= b.log
  }

  /** What a client must know before it may issue a request, stated so that growth keeps it. */
  ghost predicate WriteOk<B>(st: Store<B>, w: Write<B>) {
    match w
    case PutCell(_, cell, over) =>
      && cell.era <= Era(st)
      && (over.Some? ==> over.value.era == cell.era && over.value.rank <= cell.rank)
    case DeleteCell(cell) => cell.era < Era(st)
    case PutTomb(_) => st.log != []
    case PutCounter(_) => st.tomb.Some?
  }

  lemma GrowsTransitive<B>(a: Store<B>, b: Store<B>, c: Store<B>)
    requires Grows(a, b) && Grows(b, c)
    ensures Grows(a, c)
  {
  }

  lemma LegalSnoc<B>(log: seq<Effect<B>>, e: Effect<B>)
    requires Legal(log)
    requires LegalAt(log + [e], |log|)
    ensures Legal(log + [e])
  {
    forall k | 0 <= k < |log + [e]| ensures LegalAt(log + [e], k) {
      if k < |log| {
        assert LegalAt(log, k);
        assert Before(log + [e], k) == Before(log, k);
      }
    }
  }

  /** Applying any well-founded request, at any time and however often, keeps the invariant. */
  lemma ApplyKeeps<B>(st: Store<B>, w: Write<B>)
    requires StoreInv(st) && WriteOk(st, w)
    ensures StoreInv(Apply(st, w)) && Grows(st, Apply(st, w))
  {
    if Applies(st, w) && (w.PutCell? || w.DeleteCell?) {
      var e := if w.PutCell? then Wrote(w.who, w.cell, w.over, Era(st)) else Erased(w.cell, Era(st));
      assert Before(st.log + [e], |st.log|) == Before(st.log, |st.log|);
      LegalSnoc(st.log, e);
    }
  }

  /** A transition changes the cell by at most one effect, logged with the counter of that instant. */
  ghost predicate OneEffect<B(!new)>(a: Store<B>, b: Store<B>) {
    || (b.log == a.log && b.cell == a.cell)
    || (b.cell.None? && exists c :: b.log == a.log + [Erased(c, Era(a))])
    || (b.cell.Some? && exists p :: b.log == a.log + [Wrote(p, b.cell.value, a.cell, Era(a))])
  }

  lemma ApplyIsOneEffect<B(!new)>(st: Store<B>, w: Write<B>)
    ensures OneEffect(st, Apply(st, w))
  {
  }

  lemma UnchangedIsOneEffect<B(!new)>(st: Store<B>)
    ensures OneEffect(st, st)
  {
  }

  // ---- What a legal log implies -------------------------------------------

  lemma LaterAt<B>(log: seq<Effect<B>>, j: nat, k: nat)
    requires Legal(log) && j <= k < |log|
    ensures log[j].at <= log[k].at
    decreases k
  {
    if j < k {
      LaterAt(log, j, k - 1);
      assert LegalAt(log, k);
    }
  }

  /**
   Between an open write and any later effect at the same counter value there are only open
   writes of that era, each replacing exactly its predecessor.
  */
  lemma {:induction false} OpenRun<B>(log: seq<Effect<B>>, j: nat, k: nat)
    requires Legal(log) && j < k < |log|
    requires OpenAt(log, j) && log[k].at == log[j].at
    ensures OpenAt(log, k) && log[k].cell.era == log[j].cell.era
    ensures OpenAt(log, k - 1) && log[k].over == Some(log[k - 1].cell)
    ensures log[j].cell.rank <= log[k].cell.rank
    ensures Advancing(log) ==> log[j].cell.rank < log[k].cell.rank
    decreases k
  {
    assert LegalAt(log, k) && (Advancing(log) ==> AdvancesAt(log, k));
    LaterAt(log, j, k - 1);
    if j < k - 1 {
      OpenRun(log, j, k - 1);
    }
  }

  /** Within one era, if replacements advance, the ranks of open writes strictly grow, so a rank names one write. */
  lemma OpenRanksGrow<B>(log: seq<Effect<B>>, j: nat, k: nat)
    requires Legal(log) && Advancing(log) && j < |log| && k < |log|
    requires OpenAt(log, j) && OpenAt(log, k)
    requires log[j].cell.era == log[k].cell.era
    ensures j < k <==> log[j].cell.rank < log[k].cell.rank
    ensures log[j].cell.rank == log[k].cell.rank <==> j == k
  {
    if j < k {
      OpenRun(log, j, k);
    } else if k < j {
      OpenRun(log, k, j);
    }
  }

  /** A cell that was open when written, and whose era is still open, has not left the chain. */
  lemma OpenCellStands<B>(st: Store<B>, j: nat)
    requires StoreInv(st) && j < |st.log|
    requires OpenAt(st.log, j) && st.log[j].cell.era == Era(st)
    ensures st.cell.Some? && st.cell.value.era == Era(st)
    ensures OpenAt(st.log, |st.log| - 1)
    ensures st.log[j].cell.rank <= st.cell.value.rank
  {
    var last := |st.log| - 1;
    LaterAt(st.log, j, last);
    if j < last {
      OpenRun(st.log, j, last);
    }
  }

  /** No tombstone means that nothing was ever erased: an empty cell then means nothing was written. */
  lemma NoWitnessNoErasure<B>(st: Store<B>)
    requires StoreInv(st) && st.tomb.None?
    ensures forall k :: 0 <= k < |st.log| ==> st.log[k].Wrote?
  {
    forall k | 0 <= k < |st.log| ensures st.log[k].Wrote? {
      LaterAt(st.log, k, |st.log| - 1);
      assert LegalAt(st.log, k);
    }
  }
}
