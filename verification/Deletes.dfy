/** Deleting listed keys one by one: the fate of each request, and what the figures count. */
module Deletes {
  import opened Keys

  /** The fate of one delete or put: a failed one may have taken effect all the same. */
  datatype Fate = Done | FailedKept | FailedApplied

  ghost predicate Distinct(s: seq<Key>) { forall i, j :: 0 <= i < j < |s| ==> s[i] != s[j] }

  ghost function Elements(s: seq<Key>): set<Key> { set o | o in s }

  // Whose delete was answered, whose was not, and what is gone from the store.

  ghost function DoneOf(s: seq<Key>, fates: Key -> Fate): set<Key> { set o | o in s && fates(o).Done? }

  ghost function FailedOf(s: seq<Key>, fates: Key -> Fate): set<Key> { set o | o in s && !fates(o).Done? }

  ghost function GoneOf(s: seq<Key>, fates: Key -> Fate): set<Key> { set o | o in s && !fates(o).FailedKept? }

  lemma NoFates(fates: Key -> Fate)
    ensures DoneOf([], fates) == {} && FailedOf([], fates) == {} && GoneOf([], fates) == {}
  {
  }

  lemma SizeJoin<T>(a: set<T>, b: set<T>)
    requires a !! b
    ensures |a + b| == |a| + |b|
  {
  }

  lemma SnocElements(s: seq<Key>, i: nat)
    requires Distinct(s) && i < |s|
    ensures s[i] !in s[..i] && forall o :: o in s[..i + 1] <==> o in s[..i] || o == s[i]
  {
    assert s[..i + 1] == s[..i] + [s[i]];
  }

  lemma DoneSnoc(s: seq<Key>, i: nat, fates: Key -> Fate)
    requires Distinct(s) && i < |s|
    ensures |DoneOf(s[..i + 1], fates)| == |DoneOf(s[..i], fates)| + if fates(s[i]).Done? then 1 else 0
  {
    SnocElements(s, i);
    var more := if fates(s[i]).Done? then {s[i]} else {};
    assert DoneOf(s[..i + 1], fates) == DoneOf(s[..i], fates) + more;
    SizeJoin(DoneOf(s[..i], fates), more);
  }

  lemma FailedSnoc(s: seq<Key>, i: nat, fates: Key -> Fate)
    requires Distinct(s) && i < |s|
    ensures |FailedOf(s[..i + 1], fates)| == |FailedOf(s[..i], fates)| + if fates(s[i]).Done? then 0 else 1
  {
    SnocElements(s, i);
    var more := if fates(s[i]).Done? then {} else {s[i]};
    assert FailedOf(s[..i + 1], fates) == FailedOf(s[..i], fates) + more;
    SizeJoin(FailedOf(s[..i], fates), more);
  }

  lemma GoneSnoc(s: seq<Key>, i: nat, fates: Key -> Fate)
    requires i < |s|
    ensures GoneOf(s[..i + 1], fates) == GoneOf(s[..i], fates) + if fates(s[i]).FailedKept? then {} else {s[i]}
  {
    assert s[..i + 1] == s[..i] + [s[i]];
  }

  lemma {:induction false} DistinctSize(s: seq<Key>)
    requires Distinct(s)
    ensures |Elements(s)| == |s|
  {
    if s != [] {
      var last := |s| - 1;
      DistinctSize(s[..last]);
      ElementsSnoc(s, last);
      assert s[..|s|] == s;
    }
  }

  lemma DistinctAdd(s: seq<Key>, o: Key)
    requires Distinct(s) && o !in s
    ensures Distinct(s + [o])
  {
  }

  lemma InElements(s: seq<Key>)
    ensures forall o :: o in Elements(s) <==> o in s
  {
  }

  lemma ElementsSnoc(s: seq<Key>, i: nat)
    requires Distinct(s) && i < |s|
    ensures Elements(s[..i + 1]) == Elements(s[..i]) + {s[i]} && s[i] !in Elements(s[..i])
  {
    assert s[..i + 1] == s[..i] + [s[i]];
  }
}
