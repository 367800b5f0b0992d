/** Ordered LIST: pages of at most a given size, in byte order, after an exclusive cursor. */
module Listing {
  import opened Keys

  predicate Past(after: Key, k: Key) { Less(after, k) }

  /** The keys after the cursor, smallest first, at most `limit` of them. */
  ghost predicate IsPage(keys: set<Key>, after: Key, limit: nat, page: seq<Key>) {
    && |page| <= limit
    && (forall i :: 0 <= i < |page| ==> page[i] in keys && Past(after, page[i]))
    && (forall i, j :: 0 <= i < j < |page| ==> Less(page[i], page[j]))
    && (forall k :: k in keys && Past(after, k) && k !in page ==>
          |page| == limit && forall i :: 0 <= i < |page| ==> Less(page[i], k))
  }

  /** The cursor after the first `i` keys of a page. */
  function Cursor(after: Key, page: seq<Key>, i: nat): Key
    requires i <= |page|
  {
    if i == 0 then after else page[i - 1]
  }

  /** Keys come in order without gaps: what is past the cursor is the next key or past it. */
  lemma NextInPage(keys: set<Key>, after: Key, limit: nat, page: seq<Key>, i: nat, k: Key)
    requires IsPage(keys, after, limit, page) && i <= |page| && k in keys
    ensures Past(Cursor(after, page, i), k) ==> Past(after, k)
    ensures i < |page| && Past(Cursor(after, page, i), k) ==> k == page[i] || Less(page[i], k)
    ensures i < |page| ==> Past(Cursor(after, page, i), page[i])
    ensures i == |page| < limit ==> !Past(Cursor(after, page, i), k)
  {
    var c := Cursor(after, page, i);
    if Past(c, k) {
      if i > 0 { LessTransitive(after, page[i - 1], k); }
      if k in page {
        var j :| 0 <= j < |page| && page[j] == k;
        LessTotal(c, k);
        PageOrder(keys, after, limit, page, j, i - 1);
      }
    }
  }

  lemma PageOrder(keys: set<Key>, after: Key, limit: nat, page: seq<Key>, i: nat, j: int)
    requires IsPage(keys, after, limit, page) && j < |page|
    ensures i < j ==> Less(page[i], page[j])
  {
  }

  ghost function Beyond(keys: set<Key>, after: Key): set<Key> { set k | k in keys && Past(after, k) }

  lemma BeyondShrinks(keys: set<Key>, after: Key, later: Key)
    requires later in keys && Past(after, later)
    ensures |Beyond(keys, later)| < |Beyond(keys, after)|
  {
    forall k | k in Beyond(keys, later) ensures k in Beyond(keys, after) {
      LessTransitive(after, later, k);
    }
    LessIrreflexive(later);
    assert Beyond(keys, later) <= Beyond(keys, after) - {later};
    SubsetSize(Beyond(keys, later), Beyond(keys, after) - {later});
  }

  lemma {:induction false} SubsetSize<T>(a: set<T>, b: set<T>)
    requires a <= b
    ensures |a| <= |b|
  {
    if a != {} {
      var x :| x in a;
      SubsetSize(a - {x}, b - {x});
    }
  }

  lemma {:induction false} LeastExists(s: set<Key>) returns (m: Key)
    requires s != {}
    ensures m in s && forall k :: k in s ==> k == m || Less(m, k)
    decreases |s|
  {
    m :| m in s;
    if s != {m} {
      assert s - {m} != {} by { assert exists k :: k in s && k != m; }
      var n := LeastExists(s - {m});
      LessTotal(m, n);
      if Less(n, m) {
        m := n;
      } else {
        forall k | k in s ensures k == m || Less(m, k) {
          if k != m && k != n { LessTransitive(m, n, k); }
        }
      }
    }
  }

  /** The page so far, and the keys still to come. */
  ghost predicate Taken(keys: set<Key>, after: Key, page: seq<Key>, rest: set<Key>) {
    && (forall k :: k in rest <==> k in keys && Past(after, k) && k !in page)
    && (forall k, i :: k in rest && 0 <= i < |page| ==> Less(page[i], k))
    && (forall i :: 0 <= i < |page| ==> page[i] in keys && Past(after, page[i]))
    && (forall i, j :: 0 <= i < j < |page| ==> Less(page[i], page[j]))
  }

  lemma TakeLeast(keys: set<Key>, after: Key, page: seq<Key>, rest: set<Key>, m: Key)
    requires Taken(keys, after, page, rest) && m in rest && forall k :: k in rest ==> k == m || Less(m, k)
    ensures Taken(keys, after, page + [m], rest - {m})
  {
    hide Less;
    var longer := page + [m];
    forall k ensures k in longer <==> k in page || k == m {}
  }

  /** The first `limit` keys after the cursor. */
  method Page(keys: set<Key>, after: Key, limit: nat) returns (page: seq<Key>)
    ensures IsPage(keys, after, limit, page)
  {
    page := [];
    var rest := set k | k in keys && Past(after, k);
    while rest != {} && |page| < limit
      invariant Taken(keys, after, page, rest) && |page| <= limit
      decreases |rest|
    {
      hide Taken;
      ghost var least := LeastExists(rest);
      var m :| m in rest && forall k :: k in rest ==> k == m || Less(m, k);
      TakeLeast(keys, after, page, rest, m);
      page := page + [m];
      rest := rest - {m};
    }
  }

  // ---- Walks ------------------------------------------------------------------------

  /** Two pages in a row are one longer page. */
  lemma PagesJoin(keys: set<Key>, after: Key, a: seq<Key>, limit: nat, b: seq<Key>)
    requires IsPage(keys, after, |a|, a) && IsPage(keys, Cursor(after, a, |a|), limit, b)
    ensures IsPage(keys, after, |a| + limit, a + b)
  {
    hide Less;
    var c, page := Cursor(after, a, |a|), a + b;
    forall k | k in keys ensures Past(c, k) ==> Past(after, k) && forall i :: 0 <= i < |a| ==> Less(a[i], k) {
      if Past(c, k) { AfterAll(keys, after, a, k); }
    }
    forall k | k in keys && Past(after, k) && k !in page ensures Past(c, k) {
      if a != [] { assert a[|a| - 1] in a; }
    }
  }

  lemma AfterAll(keys: set<Key>, after: Key, a: seq<Key>, k: Key)
    requires IsPage(keys, after, |a|, a) && Past(Cursor(after, a, |a|), k)
    ensures Past(after, k) && forall i :: 0 <= i < |a| ==> Less(a[i], k)
  {
    hide Less;
    if a != [] {
      var last := a[|a| - 1];
      LessTransitive(after, last, k);
      forall i | 0 <= i < |a| ensures Less(a[i], k) {
        if i < |a| - 1 { LessTransitive(a[i], last, k); }
      }
    }
  }

  /** A page is determined by its cursor and limit. */
  lemma PageIsUnique(keys: set<Key>, after: Key, limit: nat, p: seq<Key>, q: seq<Key>)
    requires IsPage(keys, after, limit, p) && IsPage(keys, after, limit, q)
    ensures p == q
  {
    var n := if |p| < |q| then |p| else |q|;
    SamePageUpTo(keys, after, limit, p, q, n);
    if |p| < |q| {
      NoShorter(keys, after, limit, p, q);
    } else if |q| < |p| {
      NoShorter(keys, after, limit, q, p);
    }
  }

  lemma {:induction false} SamePageUpTo(keys: set<Key>, after: Key, limit: nat, p: seq<Key>, q: seq<Key>, n: nat)
    requires IsPage(keys, after, limit, p) && IsPage(keys, after, limit, q) && n <= |p| && n <= |q|
    ensures p[..n] == q[..n]
  {
    if n > 0 {
      SamePageUpTo(keys, after, limit, p, q, n - 1);
      NotBefore(keys, after, limit, p, q, n - 1);
      NotBefore(keys, after, limit, q, p, n - 1);
      LessTotal(p[n - 1], q[n - 1]);
      assert p[..n] == p[..n - 1] + [p[n - 1]] && q[..n] == q[..n - 1] + [q[n - 1]];
    }
  }

  lemma NotBefore(keys: set<Key>, after: Key, limit: nat, p: seq<Key>, q: seq<Key>, n: nat)
    requires IsPage(keys, after, limit, p) && IsPage(keys, after, limit, q) && n < |p| && n < |q|
    requires p[..n] == q[..n]
    ensures !Less(q[n], p[n])
  {
    hide Less;
    if Less(q[n], p[n]) {
      forall j | 0 <= j < |p| ensures p[j] != q[n] {
        if j < n {
          assert p[j] == p[..n][j] == q[j];
          LessTotal(q[j], q[n]);
        } else {
          if j > n { LessTransitive(q[n], p[n], p[j]); }
          LessTotal(q[n], p[j]);
        }
      }
      LessTotal(p[n], q[n]);
    }
  }

  lemma NoShorter(keys: set<Key>, after: Key, limit: nat, p: seq<Key>, q: seq<Key>)
    requires IsPage(keys, after, limit, p) && IsPage(keys, after, limit, q) && |p| <= |q| && p == q[..|p|]
    ensures |p| == |q|
  {
    hide Less;
    if |p| < |q| {
      var k := q[|p|];
      forall j | 0 <= j < |p| ensures p[j] != k {
        LessTotal(q[j], k);
      }
    }
  }

  /** Page after page until a short one: every key past the cursor, once, in order, whatever the page size. */
  method WalkAll(keys: set<Key>, after: Key, limit: nat) returns (walked: seq<Key>)
    requires limit > 0
    ensures forall k :: k in walked <==> k in keys && Past(after, k)
    ensures forall i, j :: 0 <= i < j < |walked| ==> Less(walked[i], walked[j])
    ensures forall n, whole :: |walked| <= n && IsPage(keys, after, n, whole) ==> whole == walked
  {
    walked := [];
    var more := true;
    while more
      invariant IsPage(keys, after, |walked| + if more then 0 else 1, walked)
      decreases more, |Beyond(keys, Cursor(after, walked, |walked|))|
    {
      hide Less;
      ghost var cursor := Cursor(after, walked, |walked|);
      var page := Page(keys, Cursor(after, walked, |walked|), limit);
      PagesJoin(keys, after, walked, limit, page);
      walked := walked + page;
      more := |page| == limit;
      if more { BeyondShrinks(keys, cursor, page[limit - 1]); }
    }
    forall n, whole | |walked| <= n && IsPage(keys, after, n, whole) ensures whole == walked {
      PageIsUnique(keys, after, n, whole, walked);
    }
  }

  /** What a walk that has reached its cursor has met, of a key set that changes between its pages. */
  ghost predicate Met(versions: seq<set<Key>>, after: Key, walked: seq<Key>) {
    && (forall i, j :: 0 <= i < j < |walked| ==> Less(walked[i], walked[j]))
    && (forall i :: 0 <= i < |walked| ==> Past(after, walked[i]) && exists v :: v in versions && walked[i] in v)
    && (forall k :: Past(after, k) && Throughout(versions, k) && k !in walked ==>
          Past(Cursor(after, walked, |walked|), k))
  }

  ghost predicate Throughout(versions: seq<set<Key>>, k: Key) { forall v :: v in versions ==> k in v }

  lemma PageExtends(versions: seq<set<Key>>, keys: set<Key>, after: Key, walked: seq<Key>, limit: nat, page: seq<Key>)
    requires Met(versions, after, walked) && IsPage(keys, Cursor(after, walked, |walked|), limit, page)
    ensures Met(versions + [keys], after, walked + page)
    ensures |page| < limit ==> forall k :: Past(after, k) && Throughout(versions + [keys], k) ==> k in walked + page
  {
    hide Less;
    var c, longer, all := Cursor(after, walked, |walked|), walked + page, versions + [keys];
    forall i, j | 0 <= i < |walked| && 0 <= j < |page| ensures Less(walked[i], page[j]) {
      if i < |walked| - 1 { LessTransitive(walked[i], c, page[j]); }
    }
    forall j | 0 <= j < |page| ensures Past(after, page[j]) {
      if walked != [] { LessTransitive(after, c, page[j]); }
    }
    assert keys in all && forall v :: v in versions ==> v in all;
  }

  /**
   A walk is a weakly consistent cursor, not a snapshot.  While keys come and go between its pages, it
   returns keys in strictly ascending order, each of which stood, and misses none that stood throughout.
  */
  method WalkChanging(versions: seq<set<Key>>, after: Key, limit: nat)
      returns (walked: seq<Key>, pages: nat, ended: bool)
    requires limit > 0
    ensures pages <= |versions| && (!ended ==> pages == |versions|)
    ensures Met(versions[..pages], after, walked)
    ensures ended ==> forall k :: Past(after, k) && Throughout(versions[..pages], k) ==> k in walked
  {
    walked, pages, ended := [], 0, false;
    while pages < |versions| && !ended
      invariant pages <= |versions| && Met(versions[..pages], after, walked)
      invariant ended ==> forall k :: Past(after, k) && Throughout(versions[..pages], k) ==> k in walked
    {
      hide Met, Throughout;
      var page := Page(versions[pages], Cursor(after, walked, |walked|), limit);
      PageExtends(versions[..pages], versions[pages], after, walked, limit, page);
      assert versions[..pages] + [versions[pages]] == versions[..pages + 1];
      walked, pages, ended := walked + page, pages + 1, |page| < limit;
    }
  }
}
