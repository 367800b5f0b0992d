/** Object keys: the identifier rule, decimal and zero-padded numbers, and byte order. */
module Keys {
  import opened Basics

  type Key = string

  predicate Alphanumeric(c: char) { 'a' <= c <= 'z' || 'A' <= c <= 'Z' || '0' <= c <= '9' }

  /** A character that may stand at position `i`: segments start with a letter or digit. */
  predicate Fitting(s: Key, i: nat)
    requires i < |s|
  {
    || Alphanumeric(s[i])
    || ((s[i] == '-' || s[i] == '_' || s[i] == '.') && i > 0 && s[i - 1] != '/')
    || (s[i] == '/' && 0 < i < |s| - 1 && s[i - 1] != '/')
  }

  /** Non-empty, at most 255 bytes of ASCII, in non-empty slash-separated segments. */
  predicate ValidIdentifier(s: Key) {
    0 < |s| <= 255 && forall i :: 0 <= i < |s| ==> Fitting(s, i)
  }

  // ---- Admission -----------------------------------------------------------------

  predicate HasPrefix(s: Key, prefix: Key) { |prefix| <= |s| && s[..|prefix|] == prefix }

  predicate HasSuffix(s: Key, suffix: Key) { |suffix| <= |s| && s[|s| - |suffix|..] == suffix }

  predicate Reserves(root: Key, key: Key) { HasPrefix(key, root) && |key| > |root| }

  /** `trims` is a segment of the key, and not its last. */
  predicate HasTrimsSegment(key: Key) {
    HasPrefix(key, "trims/") || exists i :: 0 <= i < |key| && TrimsAt(key, i)
  }

  predicate TrimsAt(key: Key, i: nat) { i + 7 <= |key| && key[i..i + 7] == "/trims/" }

  /** The composed path is a maintenance fence. */
  predicate Guarded(namespace: Key, key: Key) { HasSuffix("keyspace/" + namespace + "/" + key, "/fences/gc") }

  /** Neither reserved state nor an ill-formed or guarded path. */
  predicate Admissible(namespace: Key, key: Key) {
    && !Reserves("tombstones", key) && !Reserves("incarnations", key) && !Reserves("fences", key)
    && !HasTrimsSegment(key) && ValidIdentifier(key) && !Guarded(namespace, key)
  }

  // ---- Segments ----------------------------------------------------------------

  /** Cut the last segment off: `None` when no slash is left. */
  function PopSegment(s: Key): (r: Option<(Key, Key)>)
    ensures r.Some? ==> r.value.0 + "/" + r.value.1 == s && '/' !in r.value.1
    ensures r.None? ==> '/' !in s
  {
    if s == [] then None
    else if s[|s| - 1] == '/' then Some((s[..|s| - 1], ""))
    else
      match PopSegment(s[..|s| - 1])
      case None => None
      case Some((rest, segment)) => Some((rest, segment + [s[|s| - 1]]))
  }

  lemma {:induction false} PopPushed(rest: Key, segment: Key)
    requires '/' !in segment
    ensures PopSegment(rest + "/" + segment) == Some((rest, segment))
  {
    var s := rest + "/" + segment;
    if segment == "" {
      assert s[..|s| - 1] == rest;
    } else {
      var init := segment[..|segment| - 1];
      PopPushed(rest, init);
      assert s[..|s| - 1] == rest + "/" + init;
      assert init + [segment[|segment| - 1]] == segment;
    }
  }

  /** A letter or digit, then letters, digits, hyphens, underscores and dots. */
  predicate Segment(s: Key) {
    && s != "" && Alphanumeric(s[0])
    && forall i :: 1 <= i < |s| ==> Alphanumeric(s[i]) || s[i] == '-' || s[i] == '_' || s[i] == '.'
  }

  /** Segments all the way down. */
  predicate Segmented(s: Key)
    decreases |s|
  {
    match PopSegment(s)
    case None => Segment(s)
    case Some((rest, segment)) => Segmented(rest) && Segment(segment)
  }

  /** The identifier rule read off character by character is the rule on the slash-separated segments. */
  lemma ValidBySegments(s: Key)
    ensures ValidIdentifier(s) <==> |s| <= 255 && Segmented(s)
  {
    FitsBySegments(s);
  }

  lemma {:induction false} FitsBySegments(s: Key)
    ensures Segmented(s) <==> s != "" && forall i :: 0 <= i < |s| ==> Fitting(s, i)
    decreases |s|
  {
    var cut := PopSegment(s);
    if cut.None? {
      OneSegment(s);
    } else {
      var (rest, segment) := cut.value;
      FitsBySegments(rest);
      FitsAcross(rest, segment);
      hide PopSegment, Fitting, Segment;
    }
  }

  lemma OneSegment(s: Key)
    requires '/' !in s
    ensures Segment(s) <==> s != "" && forall i :: 0 <= i < |s| ==> Fitting(s, i)
  {
    if s != "" && forall i :: 0 <= i < |s| ==> Fitting(s, i) {
      assert Fitting(s, 0);
      forall i | 1 <= i < |s| ensures Alphanumeric(s[i]) || s[i] == '-' || s[i] == '_' || s[i] == '.' {
        assert Fitting(s, i);
      }
    }
  }

  lemma FitsAcross(rest: Key, segment: Key)
    requires '/' !in segment
    ensures (forall i :: 0 <= i < |rest + "/" + segment| ==> Fitting(rest + "/" + segment, i)) <==>
      rest != "" && (forall i :: 0 <= i < |rest| ==> Fitting(rest, i)) && Segment(segment)
  {
    var s := rest + "/" + segment;
    assert forall i :: 0 <= i < |rest| ==> s[i] == rest[i];
    assert s[|rest|] == '/' && forall i :: 0 <= i < |segment| ==> s[|rest| + 1 + i] == segment[i];
    if forall i :: 0 <= i < |s| ==> Fitting(s, i) {
      assert Fitting(s, |rest|);
      assert segment != "" && Fitting(s, |rest| + 1);
      forall i | 1 <= i < |segment|
        ensures Alphanumeric(segment[i]) || segment[i] == '-' || segment[i] == '_' || segment[i] == '.'
      {
        assert Fitting(s, |rest| + 1 + i);
      }
      forall i | 0 <= i < |rest| ensures Fitting(rest, i) { assert Fitting(s, i); }
    }
    if rest != "" && (forall i :: 0 <= i < |rest| ==> Fitting(rest, i)) && Segment(segment) {
      forall i | 0 <= i < |s| ensures Fitting(s, i) {
        if i < |rest| {
          assert Fitting(rest, i);
        } else if i == |rest| {
          assert Fitting(rest, |rest| - 1);
        } else {
          assert s[i] == segment[i - |rest| - 1];
        }
      }
    }
  }

  // ---- Zero-padded numbers -------------------------------------------------------

  const SEQ_DIGITS: nat := 20

  predicate IsDigit(c: char) { '0' <= c <= '9' }

  function Digit(d: nat): (c: char)
    requires d < 10
    ensures IsDigit(c)
  {
    '0' + d as char
  }

  function DigitValue(c: char): (d: nat)
    requires IsDigit(c)
    ensures d < 10 && Digit(d) == c
  {
    (c - '0') as nat
  }

  function Pow10(w: nat): (p: nat)
    ensures p > 0
  {
    if w == 0 then 1 else 10 * Pow10(w - 1)
  }

  predicate AllDigits(s: Key) { forall i :: 0 <= i < |s| ==> IsDigit(s[i]) }

  function Padded(n: nat, w: nat): (s: Key)
    requires n < Pow10(w)
    ensures |s| == w && AllDigits(s)
  {
    if w == 0 then "" else Padded(n / 10, w - 1) + [Digit(n % 10)]
  }

  function Numeral(s: Key): (n: nat)
    requires AllDigits(s)
    ensures n < Pow10(|s|)
  {
    if s == "" then 0 else 10 * Numeral(s[..|s| - 1]) + DigitValue(s[|s| - 1])
  }

  lemma NumeralSnoc(s: Key, d: nat)
    requires AllDigits(s) && d < 10
    ensures AllDigits(s + [Digit(d)]) && Numeral(s + [Digit(d)]) == 10 * Numeral(s) + d
  {
    assert (s + [Digit(d)])[..|s|] == s;
  }

  lemma TimesTen(n: nat, d: nat)
    requires d < 10
    ensures (10 * n + d) / 10 == n && (10 * n + d) % 10 == d
  {}

  lemma PaddedSnoc(n: nat, d: nat, w: nat)
    requires n < Pow10(w) && d < 10
    ensures 10 * n + d < Pow10(w + 1) && Padded(10 * n + d, w + 1) == Padded(n, w) + [Digit(d)]
  {
    TimesTen(n, d);
  }

  lemma {:induction false} NumeralOfPadded(n: nat, w: nat)
    requires n < Pow10(w)
    ensures Numeral(Padded(n, w)) == n
  {
    if w > 0 {
      var m, d := n / 10, n % 10;
      assert n == 10 * m + d;
      NumeralOfPadded(m, w - 1);
      PaddedSnoc(m, d, w - 1);
      NumeralSnoc(Padded(m, w - 1), d);
      hide Padded, Numeral;
    }
  }

  lemma {:induction false} PaddedOfNumeral(s: Key)
    requires AllDigits(s)
    ensures Padded(Numeral(s), |s|) == s
  {
    if s != "" {
      var init, d := s[..|s| - 1], DigitValue(s[|s| - 1]);
      PaddedOfNumeral(init);
      PaddedSnoc(Numeral(init), d, |init|);
      NumeralSnoc(init, d);
      hide Padded, Numeral, Digit;
      assert s == init + [Digit(d)];
    }
  }

  lemma SeqFits()
    ensures U64_MAX < Pow10(SEQ_DIGITS)
  {
    assert Pow10(5) == 100_000;
    assert Pow10(10) == 100_000 * Pow10(5);
    assert Pow10(15) == 100_000 * Pow10(10);
    assert Pow10(20) == 100_000 * Pow10(15);
  }

  /** `{n:020}` */
  function SeqComponent(n: nat): (s: Key)
    requires n <= U64_MAX
    ensures |s| == SEQ_DIGITS && AllDigits(s)
  {
    SeqFits();
    Padded(n, SEQ_DIGITS)
  }

  /** Exactly twenty digits, and no overflow. */
  function ParseSeq(s: Key): (r: Option<nat>)
    ensures r.Some? ==> r.value <= U64_MAX && SeqComponent(r.value) == s
  {
    if |s| == SEQ_DIGITS && AllDigits(s) && Numeral(s) <= U64_MAX then
      PaddedOfNumeral(s);
      Some(Numeral(s))
    else None
  }

  lemma ParsePrinted(n: nat)
    requires n <= U64_MAX
    ensures ParseSeq(SeqComponent(n)) == Some(n)
  {
    SeqFits();
    NumeralOfPadded(n, SEQ_DIGITS);
  }

  // ---- Byte order --------------------------------------------------------------------

  predicate Less(a: Key, b: Key) {
    b != "" && (a == "" || a[0] < b[0] || (a[0] == b[0] && Less(a[1..], b[1..])))
  }

  lemma {:induction false} LessTotal(a: Key, b: Key)
    ensures Less(a, b) || a == b || Less(b, a)
    ensures !(Less(a, b) && Less(b, a)) && !Less(a, a)
  {
    if a != "" && b != "" && a[0] == b[0] {
      LessTotal(a[1..], b[1..]);
      assert a == [a[0]] + a[1..] && b == [b[0]] + b[1..];
    }
    LessIrreflexive(a);
  }

  lemma {:induction false} LessIrreflexive(a: Key)
    ensures !Less(a, a)
  {
    if a != "" {
      LessIrreflexive(a[1..]);
    }
  }

  lemma {:induction false} LessTransitive(a: Key, b: Key, c: Key)
    requires Less(a, b) && Less(b, c)
    ensures Less(a, c)
  {
    if a != "" && a[0] == b[0] && b[0] == c[0] {
      LessTransitive(a[1..], b[1..], c[1..]);
    }
  }

  /** A common prefix does not matter. */
  lemma {:induction false} LessAfterPrefix(p: Key, a: Key, b: Key)
    ensures Less(p + a, p + b) <==> Less(a, b)
  {
    if p == "" {
      assert p + a == a && p + b == b;
    } else {
      LessAfterPrefix(p[1..], a, b);
      assert (p + a)[1..] == p[1..] + a && (p + b)[1..] == p[1..] + b;
    }
  }

  lemma PrefixCons(s: Key, p: Key)
    requires s != "" && p != ""
    ensures HasPrefix(s, p) <==> s[0] == p[0] && HasPrefix(s[1..], p[1..])
  {
    assert p == [p[0]] + p[1..];
    if |p| <= |s| {
      assert s[..|p|] == [s[0]] + s[1..][..|p| - 1];
    }
  }

  lemma FirstOfPrefix(s: Key, p: Key)
    requires p != ""
    ensures HasPrefix(s, p) ==> s[0] == p[0]
  {
    if s != "" { PrefixCons(s, p); }
  }

  /** The keys with a given prefix lie together: any other key is before all of them or after all of them. */
  lemma {:induction false} PrefixBlock(p: Key, x: Key, y: Key)
    requires HasPrefix(x, p) && !HasPrefix(y, p)
    ensures Less(y, x) <==> Less(y, p)
    ensures Less(x, y) <==> Less(p, y)
  {
    if y != "" && x[0] == y[0] {
      PrefixCons(x, p);
      PrefixCons(y, p);
      PrefixBlock(p[1..], x[1..], y[1..]);
    }
  }

  lemma {:induction false} LessSnoc(a: Key, b: Key, c: char, d: char)
    requires |a| == |b|
    ensures Less(a + [c], b + [d]) <==> Less(a, b) || (a == b && c < d)
  {
    if a != "" {
      LessSnoc(a[1..], b[1..], c, d);
      assert (a + [c])[1..] == a[1..] + [c] && (b + [d])[1..] == b[1..] + [d];
      assert a == [a[0]] + a[1..] && b == [b[0]] + b[1..];
    }
  }

  /** Zero-padded numbers sort as numbers. */
  lemma {:induction false} PaddedOrder(m: nat, n: nat, w: nat)
    requires m < Pow10(w) && n < Pow10(w)
    ensures Less(Padded(m, w), Padded(n, w)) <==> m < n
  {
    if w > 0 {
      PaddedOrder(m / 10, n / 10, w - 1);
      LessSnoc(Padded(m / 10, w - 1), Padded(n / 10, w - 1), Digit(m % 10), Digit(n % 10));
      if Padded(m / 10, w - 1) == Padded(n / 10, w - 1) {
        NumeralOfPadded(m / 10, w - 1);
        NumeralOfPadded(n / 10, w - 1);
      }
    }
  }

  lemma SeqOrder(p: Key, m: nat, n: nat)
    requires m <= U64_MAX && n <= U64_MAX
    ensures Less(p + SeqComponent(m), p + SeqComponent(n)) <==> m < n
  {
    SeqFits();
    PaddedOrder(m, n, SEQ_DIGITS);
    LessAfterPrefix(p, SeqComponent(m), SeqComponent(n));
  }
}
