/** The private object path of a chunk, printed and parsed. */
module ChunkPath {
  import opened Basics
  import opened Keys

  const ROOT: Key := "keyspace-chunks/v1/"

  datatype Path = Path(namespace: Key, key: Key, incarnation: nat, version: nat, digest: Key)

  // ---- Lower-case hex ----------------------------------------------------------

  predicate HexChar(c: char) { IsDigit(c) || 'a' <= c <= 'f' }

  predicate LowerHex(s: Key) { forall i :: 0 <= i < |s| ==> HexChar(s[i]) }

  predicate Byte(c: char) { c as nat < 256 }

  predicate Bytes(s: Key) { forall i :: 0 <= i < |s| ==> Byte(s[i]) }

  predicate HexText(h: Key) { LowerHex(h) && |h| % 2 == 0 }

  function HexDigit(d: nat): (c: char)
    requires d < 16
  {
    if d < 10 then '0' + d as char else 'a' + (d - 10) as char
  }

  function HexValue(c: char): (d: nat)
    requires HexChar(c)
    ensures d < 16 && HexDigit(d) == c
  {
    if IsDigit(c) then (c - '0') as nat else (c - 'a') as nat + 10
  }

  function HexPair(c: char): (h: Key)
    requires Byte(c)
    ensures |h| == 2 && LowerHex(h)
  {
    [HexDigit(c as nat / 16), HexDigit(c as nat % 16)]
  }

  function PairChar(a: char, b: char): (c: char)
    requires HexChar(a) && HexChar(b)
    ensures Byte(c) && HexPair(c) == [a, b]
  {
    (16 * HexValue(a) + HexValue(b)) as char
  }

  lemma PairOfChar(c: char) returns (a: char, b: char)
    requires Byte(c)
    ensures HexPair(c) == [a, b] && HexChar(a) && HexChar(b) && PairChar(a, b) == c
  {
    a, b := HexPair(c)[0], HexPair(c)[1];
  }

  /** Two digits for each byte; identifiers are ASCII, so a character is a byte. */
  function Hex(s: Key): (h: Key)
    requires Bytes(s)
    ensures |h| == 2 * |s| && HexText(h)
  {
    if s == "" then "" else Hex(s[..|s| - 1]) + HexPair(s[|s| - 1])
  }

  function Unhex(h: Key): (s: Key)
    requires HexText(h)
    ensures 2 * |s| == |h| && Bytes(s)
  {
    if h == "" then ""
    else Unhex(h[..|h| - 2]) + [PairChar(h[|h| - 2], h[|h| - 1])]
  }

  lemma HexTextSnoc(h: Key, a: char, b: char)
    requires HexText(h) && HexChar(a) && HexChar(b)
    ensures HexText(h + [a, b])
  {
    hide HexChar;
  }

  lemma HexSnoc(s: Key, c: char)
    requires Bytes(s) && Byte(c)
    ensures Bytes(s + [c]) && Hex(s + [c]) == Hex(s) + HexPair(c)
  {
    assert (s + [c])[..|s|] == s;
  }

  lemma UnhexSnoc(h: Key, a: char, b: char)
    requires HexText(h) && HexChar(a) && HexChar(b)
    ensures HexText(h + [a, b]) && Unhex(h + [a, b]) == Unhex(h) + [PairChar(a, b)]
  {
    HexTextSnoc(h, a, b);
    assert (h + [a, b])[..|h|] == h;
  }

  lemma HexNothing()
    ensures Hex("") == "" && Unhex("") == ""
  {}

  lemma UnhexHexSnoc(s: Key, c: char)
    requires Bytes(s) && Byte(c) && Unhex(Hex(s)) == s
    ensures Bytes(s + [c]) && Unhex(Hex(s + [c])) == s + [c]
  {
    hide Byte, Bytes, HexChar, HexText, HexPair, PairChar, Hex, Unhex;
    var a, b := PairOfChar(c);
    HexSnoc(s, c);
    UnhexSnoc(Hex(s), a, b);
  }

  lemma {:induction false} UnhexHex(s: Key)
    requires Bytes(s)
    ensures Unhex(Hex(s)) == s
  {
    hide Byte, Hex, Unhex;
    if s == "" {
      HexNothing();
    } else {
      var init, c := s[..|s| - 1], s[|s| - 1];
      UnhexHex(init);
      UnhexHexSnoc(init, c);
      assert init + [c] == s;
    }
  }

  lemma HexUnhexSnoc(h: Key, a: char, b: char)
    requires HexText(h) && HexChar(a) && HexChar(b) && Hex(Unhex(h)) == h
    ensures HexText(h + [a, b]) && Hex(Unhex(h + [a, b])) == h + [a, b]
  {
    hide Byte, Bytes, HexChar, HexText, HexPair, PairChar, Hex, Unhex;
    UnhexSnoc(h, a, b);
    HexSnoc(Unhex(h), PairChar(a, b));
  }

  lemma LastPair(h: Key) returns (init: Key, a: char, b: char)
    requires HexText(h) && h != ""
    ensures h == init + [a, b] && |init| + 2 == |h|
    ensures HexText(init) && HexChar(a) && HexChar(b)
  {
    hide HexChar;
    init, a, b := h[..|h| - 2], h[|h| - 2], h[|h| - 1];
  }

  lemma {:induction false} HexUnhex(h: Key)
    requires HexText(h)
    ensures Hex(Unhex(h)) == h
    decreases |h|
  {
    hide HexChar, HexText, Hex, Unhex;
    if h == "" {
      HexNothing();
    } else {
      var init, a, b := LastPair(h);
      HexUnhex(init);
      HexUnhexSnoc(init, a, b);
    }
  }

  // ---- Paths -----------------------------------------------------------------------

  predicate Valid(p: Path) {
    && ValidIdentifier(p.namespace) && ValidIdentifier(p.key)
    && p.incarnation <= U64_MAX && p.version <= U64_MAX
    && LowerHex(p.digest) && |p.digest| == 64
  }

  lemma IdentifierIsAscii(s: Key)
    requires ValidIdentifier(s)
    ensures forall i :: 0 <= i < |s| ==> s[i] as nat < 128
  {
    forall i | 0 <= i < |s| ensures s[i] as nat < 128 {
      assert Fitting(s, i);
      assert Alphanumeric(s[i]) ==> s[i] <= 'z';
    }
  }

  function HexKey(p: Path): (h: Key)
    requires Valid(p)
    ensures h != "" && LowerHex(h) && |h| == 2 * |p.key|
    ensures Unhex(h) == p.key
  {
    IdentifierIsAscii(p.key);
    UnhexHex(p.key);
    Hex(p.key)
  }

  /** `{namespace}/{hex(key)}` */
  function Keyed(p: Path): Key
    requires Valid(p)
  {
    p.namespace + "/" + HexKey(p)
  }

  /** `{namespace}/{hex(key)}/{incarnation:020}/{version:020}` */
  function Versioned(p: Path): Key
    requires Valid(p)
  {
    Keyed(p) + "/" + SeqComponent(p.incarnation) + "/" + SeqComponent(p.version)
  }

  function Print(p: Path): Key
    requires Valid(p)
  {
    ROOT + (Versioned(p) + "/" + p.digest)
  }

  /** From the right: digest, version, incarnation, hex key; what is left is the namespace, slashes and all. */
  function Parse(s: Key): Option<Path> {
    if !HasPrefix(s, ROOT) then None else
    match PopSegment(s[|ROOT|..])
    case None => None
    case Some((rest1, digest)) =>
      match PopSegment(rest1)
      case None => None
      case Some((rest2, version)) =>
        match PopSegment(rest2)
        case None => None
        case Some((rest3, incarnation)) =>
          match PopSegment(rest3)
          case None => None
          case Some((namespace, encoded)) => Assemble(namespace, encoded, incarnation, version, digest)
  }

  function Assemble(namespace: Key, encoded: Key, incarnation: Key, version: Key, digest: Key): Option<Path> {
    if ParseSeq(version).None? || ParseSeq(incarnation).None? then None
    else if !LowerHex(digest) || |digest| != 64 then None
    else if encoded == "" || |encoded| % 2 != 0 || !LowerHex(encoded) then None
    else if !ValidIdentifier(namespace) || !ValidIdentifier(Unhex(encoded)) then None
    else Some(Path(namespace, Unhex(encoded), ParseSeq(incarnation).value, ParseSeq(version).value, digest))
  }

  lemma NoSlashes(p: Path)
    requires Valid(p)
    ensures '/' !in p.digest && '/' !in SeqComponent(p.version) && '/' !in SeqComponent(p.incarnation) &&
      '/' !in HexKey(p)
  {
  }

  lemma Stripped(p: Path)
    requires Valid(p)
    ensures HasPrefix(Print(p), ROOT) && Print(p)[|ROOT|..] == Versioned(p) + "/" + p.digest
  {
    hide Versioned;
  }

  lemma Assembled(p: Path)
    requires Valid(p)
    ensures Assemble(p.namespace, HexKey(p), SeqComponent(p.incarnation), SeqComponent(p.version), p.digest) == Some(p)
  {
    hide HexKey, Unhex, ParseSeq, SeqComponent, ValidIdentifier, LowerHex;
    ParsePrinted(p.incarnation);
    ParsePrinted(p.version);
  }

  /** Every printed path parses back to its five fields. */
  lemma ParsePrint(p: Path)
    requires Valid(p)
    ensures Parse(Print(p)) == Some(p)
  {
    NoSlashes(p);
    Stripped(p);
    Assembled(p);
    PopPushed(p.namespace, HexKey(p));
    PopPushed(Keyed(p), SeqComponent(p.incarnation));
    PopPushed(Keyed(p) + "/" + SeqComponent(p.incarnation), SeqComponent(p.version));
    PopPushed(Versioned(p), p.digest);
    hide Print, HexKey, SeqComponent, PopSegment, HasPrefix, Assemble, ValidIdentifier;
  }

  /** The longest path fits well below the store's 1,024-byte key limit; the bound is attained. */
  lemma PathLength(p: Path)
    requires Valid(p)
    ensures |Print(p)| == 127 + |p.namespace| + 2 * |p.key| <= 892
  {
  }

  /** Every accepted path is the print of the fields it parsed to: nothing else names a chunk. */
  lemma PrintParse(s: Key)
    requires Parse(s).Some?
    ensures Valid(Parse(s).value) && Print(Parse(s).value) == s
  {
    var p := Parse(s).value;
    var (rest1, digest) := PopSegment(s[|ROOT|..]).value;
    var (rest2, version) := PopSegment(rest1).value;
    var (rest3, incarnation) := PopSegment(rest2).value;
    var (namespace, encoded) := PopSegment(rest3).value;
    HexUnhex(encoded);
    assert HexKey(p) == encoded;
    hide HexKey, Unhex, SeqComponent, ParseSeq, PopSegment, LowerHex, ValidIdentifier;
    assert s == ROOT + s[|ROOT|..];
  }
}
