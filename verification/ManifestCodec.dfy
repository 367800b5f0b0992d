/** The binary manifest of a chunked value: canonical encoding, and a decoder that accepts nothing else. */
module ManifestCodec {
  import opened Basics

  type Bytes = seq<byte>

  const CHUNK_BYTES: nat := 16 * 1024 * 1024
  const MIN_CHUNKS: nat := 2
  const MAX_CHUNKS: nat := 65_536
  const MAX_LOGICAL_BYTES: nat := CHUNK_BYTES * MAX_CHUNKS
  const MAX_MANIFEST_BYTES: nat := 4 * 1024 * 1024

  const U32: nat := 0x1_0000_0000

  /** "yeetz-keyspace-value/v3" and a zero byte: 24 bytes. */
  const MAGIC: Bytes := [121, 101, 101, 116, 122, 45, 107, 101, 121, 115, 112, 97, 99, 101, 45, 118, 97, 108, 117,
    101, 47, 118, 51, 0]

  /** "yeetz-keyspace-value-root/v1". */
  const ROOT_DOMAIN: Bytes := [121, 101, 101, 116, 122, 45, 107, 101, 121, 115, 112, 97, 99, 101, 45, 118, 97, 108,
    117, 101, 45, 114, 111, 111, 116, 47, 118, 49]

  const KIND: nat := 1
  const HEADER_BYTES: nat := 108
  const ENTRY_BYTES: nat := 36

  /** The size of a table of `n` entries, and where entry `i` starts. */
  function TableBytes(n: nat): nat { 36 * n }

  function EntryStart(i: nat): nat { 108 + 36 * i }

  type Digest = d: Bytes | |d| == 32
    witness [0, 0, 0, 0, 0, 0, 0, 0, 0, 0, 0, 0, 0, 0, 0, 0, 0, 0, 0, 0, 0, 0, 0, 0, 0, 0, 0, 0, 0, 0, 0, 0]

  type CommitId = c: Bytes | |c| == 16
    witness [0, 0, 0, 0, 0, 0, 0, 0, 0, 0, 0, 0, 0, 0, 0, 0]

  type U32Int = n: nat | n < U32
  type U64Int = n: nat | n <= U64_MAX

  datatype Entry = Entry(len: U32Int, digest: Digest)

  datatype Manifest = Manifest(
    incarnation: U64Int, version: U64Int, commit: CommitId, logicalLen: U64Int,
    root: Digest, chunkBytes: U32Int, entries: seq<Entry>)

  /** Any hash; nothing below depends on which. */
  type Hash = Bytes -> Digest

  // ---- Big-endian integers ---------------------------------------------------

  function Pow256(w: nat): (p: nat)
    ensures p > 0
  {
    if w == 0 then 1 else 256 * Pow256(w - 1)
  }

  function BigEndian(n: nat, w: nat): (b: Bytes)
    requires n < Pow256(w)
    ensures |b| == w
  {
    if w == 0 then [] else BigEndian(n / 256, w - 1) + [(n % 256) as byte]
  }

  function FromBigEndian(b: Bytes): (n: nat)
    ensures n < Pow256(|b|)
  {
    if b == [] then 0 else 256 * FromBigEndian(b[..|b| - 1]) + b[|b| - 1] as nat
  }

  lemma Digits256(n: nat, d: nat)
    requires d < 256
    ensures (256 * n + d) / 256 == n && (256 * n + d) % 256 == d
  {}

  lemma BigEndianSnoc(n: nat, d: byte, w: nat)
    requires n < Pow256(w)
    ensures 256 * n + d as nat < Pow256(w + 1) && BigEndian(256 * n + d as nat, w + 1) == BigEndian(n, w) + [d]
  {
    Digits256(n, d as nat);
  }

  lemma FromBigEndianSnoc(b: Bytes, d: byte)
    ensures FromBigEndian(b + [d]) == 256 * FromBigEndian(b) + d as nat
  {
    assert (b + [d])[..|b|] == b;
  }

  lemma {:induction false} DecodeEncoded(n: nat, w: nat)
    requires n < Pow256(w)
    ensures FromBigEndian(BigEndian(n, w)) == n
  {
    if w > 0 {
      var m, d := n / 256, (n % 256) as byte;
      assert n == 256 * m + d as nat;
      DecodeEncoded(m, w - 1);
      BigEndianSnoc(m, d, w - 1);
      FromBigEndianSnoc(BigEndian(m, w - 1), d);
      hide BigEndian, FromBigEndian;
    }
  }

  lemma {:induction false} EncodeDecoded(b: Bytes)
    ensures BigEndian(FromBigEndian(b), |b|) == b
    decreases |b|
  {
    if b != [] {
      var init, d := b[..|b| - 1], b[|b| - 1];
      EncodeDecoded(init);
      BigEndianSnoc(FromBigEndian(init), d, |init|);
      FromBigEndianSnoc(init, d);
      hide BigEndian, FromBigEndian;
      assert b == init + [d];
    }
  }

  lemma Widths()
    ensures Pow256(4) == U32 && Pow256(8) == U64_MAX + 1
  {
    assert Pow256(4) == U32;
    assert Pow256(5) == 256 * U32;
    assert Pow256(6) == 256 * 256 * U32;
    assert Pow256(7) == 256 * 256 * 256 * U32;
  }

  function Be4(n: U32Int): (b: Bytes)
    ensures |b| == 4
  {
    Widths();
    BigEndian(n, 4)
  }

  function Be8(n: U64Int): (b: Bytes)
    ensures |b| == 8
  {
    Widths();
    BigEndian(n, 8)
  }

  function Read4(b: Bytes): (n: U32Int)
    requires |b| == 4
  {
    Widths();
    FromBigEndian(b)
  }

  function Read8(b: Bytes): (n: U64Int)
    requires |b| == 8
  {
    Widths();
    FromBigEndian(b)
  }

  lemma Fixed4(b: Bytes, n: U32Int)
    requires |b| == 4
    ensures Be4(n) == b <==> n == Read4(b)
  {
    Widths();
    DecodeEncoded(n, 4);
    EncodeDecoded(b);
  }

  lemma Fixed8(b: Bytes, n: U64Int)
    requires |b| == 8
    ensures Be8(n) == b <==> n == Read8(b)
  {
    Widths();
    DecodeEncoded(n, 8);
    EncodeDecoded(b);
  }

  // ---- The canonical form -------------------------------------------------------

  function EntryForm(e: Entry): (b: Bytes)
    ensures |b| == ENTRY_BYTES
  {
    Be4(e.len) + e.digest
  }

  function Table(entries: seq<Entry>): (b: Bytes)
    ensures |b| == TableBytes(|entries|)
  {
    if entries == [] then [] else Table(entries[..|entries| - 1]) + EntryForm(entries[|entries| - 1])
  }

  function TotalLen(entries: seq<Entry>): nat {
    if entries == [] then 0 else TotalLen(entries[..|entries| - 1]) + entries[|entries| - 1].len
  }

  /** What the root hashes: the length, the chunk size, the count, and every entry in order. */
  function RootInput(logicalLen: U64Int, chunkBytes: U32Int, entries: seq<Entry>): Bytes {
    ROOT_DOMAIN + Be8(logicalLen) + Be4(chunkBytes) + Be4(|entries| % U32) + Table(entries)
  }

  function ValueRoot(sha: Hash, logicalLen: U64Int, chunkBytes: U32Int, entries: seq<Entry>): Digest {
    sha(RootInput(logicalLen, chunkBytes, entries))
  }

  function Header(m: Manifest): (b: Bytes)
    ensures |b| == HEADER_BYTES
  {
    MAGIC + Be8(m.incarnation) + Be8(m.version) + Be4(KIND) + m.commit + Be8(m.logicalLen) + m.root
    + Be4(m.chunkBytes) + Be4(|m.entries| % U32)
  }

  function Serialize(m: Manifest): (b: Bytes)
    ensures |b| == EntryStart(|m.entries|)
  {
    Header(m) + Table(m.entries)
  }

  /** Every chunk but the last is full; the last holds at least one byte. */
  predicate Cut(entries: seq<Entry>) {
    forall i :: 0 <= i < |entries| ==> FitsAt(entries[i].len, i, |entries|)
  }

  predicate FitsAt(len: nat, i: nat, count: nat) {
    if i + 1 < count then len == CHUNK_BYTES else 1 <= len <= CHUNK_BYTES
  }

  /** All of the canonical rules but the root. */
  predicate Shaped(m: Manifest) {
    && m.chunkBytes == CHUNK_BYTES
    && MIN_CHUNKS <= |m.entries| <= MAX_CHUNKS
    && Cut(m.entries)
    && m.logicalLen == TotalLen(m.entries)
  }

  /** The canonical lengths are those of consecutive 16 MiB slices: a shaped table is the cut of its length. */
  lemma ShapedIff(m: Manifest)
    ensures Shaped(m) <==>
      && m.chunkBytes == CHUNK_BYTES && MIN_CHUNKS <= |m.entries| <= MAX_CHUNKS
      && SliceStart(|m.entries| - 1) < m.logicalLen <= SliceStart(|m.entries|)
      && forall i :: 0 <= i < |m.entries| ==> m.entries[i].len == SliceLen(m.logicalLen, i)
  {
    var n := |m.entries|;
    if MIN_CHUNKS <= n {
      if Cut(m.entries) { FullTotal(m.entries); }
      if forall i :: 0 <= i < n ==> m.entries[i].len == SliceLen(m.logicalLen, i) {
        if SliceStart(n - 1) < m.logicalLen <= SliceStart(n) {
          SlicesCut(m.entries, m.logicalLen);
          FullTotal(m.entries);
        }
      }
    }
  }

  function SliceStart(i: int): int { 16_777_216 * i }

  function SliceLen(total: nat, i: nat): int {
    (if SliceStart(i + 1) <= total then SliceStart(i + 1) else total) - SliceStart(i)
  }

  lemma SlicesCut(entries: seq<Entry>, total: nat)
    requires entries != [] && SliceStart(|entries| - 1) < total <= SliceStart(|entries|)
    requires forall i :: 0 <= i < |entries| ==> entries[i].len == SliceLen(total, i)
    ensures Cut(entries)
  {
    forall i | 0 <= i < |entries| ensures FitsAt(entries[i].len, i, |entries|) {
      assert entries[i].len == SliceLen(total, i);
    }
  }

  lemma FullTotal(entries: seq<Entry>)
    requires entries != [] && Cut(entries)
    ensures TotalLen(entries) == SliceStart(|entries| - 1) + entries[|entries| - 1].len
  {
    var init := entries[..|entries| - 1];
    forall i | 0 <= i < |init| ensures init[i].len == CHUNK_BYTES {
      assert FitsAt(entries[i].len, i, |entries|);
    }
    AllFull(init);
  }

  lemma {:induction false} AllFull(entries: seq<Entry>)
    requires forall i :: 0 <= i < |entries| ==> entries[i].len == CHUNK_BYTES
    ensures TotalLen(entries) == SliceStart(|entries|)
  {
    if entries != [] { AllFull(entries[..|entries| - 1]); }
  }

  predicate Rooted(sha: Hash, m: Manifest) { m.root == ValueRoot(sha, m.logicalLen, m.chunkBytes, m.entries) }

  predicate Canonical(sha: Hash, m: Manifest) { Shaped(m) && Rooted(sha, m) }

  // ---- Encoding and decoding ---------------------------------------------------

  method Encode(m: Manifest) returns (b: Bytes)
    ensures b == Serialize(m)
  {
    b := MAGIC;
    b := b + Be8(m.incarnation);
    b := b + Be8(m.version);
    b := b + Be4(KIND);
    b := b + m.commit;
    b := b + Be8(m.logicalLen);
    b := b + m.root;
    b := b + Be4(m.chunkBytes);
    b := b + Be4(|m.entries| % U32);
    assert b == Header(m);
    for i := 0 to |m.entries|
      invariant b == Header(m) + Table(m.entries[..i])
    {
      b := b + Be4(m.entries[i].len);
      b := b + m.entries[i].digest;
      assert m.entries[..i + 1][..i] == m.entries[..i];
    }
    assert m.entries[..|m.entries|] == m.entries;
  }

  datatype Decoded =
    | Accepted(manifest: Manifest)
    | TooLarge
    | Malformed
    | ChunkCountInvalid(count: nat)
    | RootMismatch

  /** The header fields of `b`, read at their fixed offsets. */
  function Fields(b: Bytes, entries: seq<Entry>): Manifest
    requires |b| >= HEADER_BYTES
  {
    Manifest(Read8(b[24..32]), Read8(b[32..40]), b[44..60], Read8(b[60..68]), b[68..100], Read4(b[100..104]), entries)
  }

  predicate Framed(b: Bytes)
    requires |b| >= HEADER_BYTES
  {
    b[..24] == MAGIC && Read4(b[40..44]) == KIND
  }

  lemma HeaderIff(b: Bytes, m: Manifest)
    requires |b| >= HEADER_BYTES
    ensures b[..HEADER_BYTES] == Header(m) <==>
      Framed(b) && Fields(b, m.entries) == m && Read4(b[104..108]) == |m.entries| % U32
  {
    Fixed8(b[24..32], m.incarnation);
    Fixed8(b[32..40], m.version);
    Fixed4(b[40..44], KIND);
    Fixed8(b[60..68], m.logicalLen);
    Fixed4(b[100..104], m.chunkBytes);
    Fixed4(b[104..108], |m.entries| % U32);
    HeaderSlices(m);
    SlicesDecide(b, Header(m));
    hide Header, BigEndian, FromBigEndian, Be4, Be8, Read4, Read8;
  }

  lemma HeaderSlices(m: Manifest)
    ensures var h := Header(m);
      && h[..24] == MAGIC && h[24..32] == Be8(m.incarnation) && h[32..40] == Be8(m.version) && h[40..44] == Be4(KIND)
      && h[44..60] == m.commit && h[60..68] == Be8(m.logicalLen) && h[68..100] == m.root
      && h[100..104] == Be4(m.chunkBytes) && h[104..108] == Be4(|m.entries| % U32)
  {
  }

  lemma SlicesDecide(b: Bytes, h: Bytes)
    requires |b| >= |h| == HEADER_BYTES
    ensures b[..HEADER_BYTES] == h <==>
      && b[..24] == h[..24] && b[24..32] == h[24..32] && b[32..40] == h[32..40] && b[40..44] == h[40..44]
      && b[44..60] == h[44..60] && b[60..68] == h[60..68] && b[68..100] == h[68..100]
      && b[100..104] == h[100..104] && b[104..108] == h[104..108]
  {
    if b[..HEADER_BYTES] == h {
      assert forall i, j :: 0 <= i <= j <= HEADER_BYTES ==> b[i..j] == h[i..j];
    } else {
      var k :| 0 <= k < HEADER_BYTES && b[k] != h[k];
      var n := if k < 24 then 0 else if k < 32 then 24 else if k < 40 then 32 else if k < 44 then 40
        else if k < 60 then 44 else if k < 68 then 60 else if k < 100 then 68 else if k < 104 then 100 else 104;
      var l := if n == 0 then 24 else if n == 24 then 32 else if n == 32 then 40 else if n == 40 then 44
        else if n == 44 then 60 else if n == 60 then 68 else if n == 68 then 100 else if n == 100 then 104 else 108;
      assert b[n..l][k - n] != h[n..l][k - n];
    }
  }

  /** The `i`-th table entry of `b`. */
  function EntryAt(b: Bytes, i: nat): Entry
    requires EntryStart(i + 1) <= |b|
  {
    var start := EntryStart(i);
    Entry(Read4(b[start..start + 4]), b[start + 4..start + ENTRY_BYTES])
  }

  lemma EntryFormIff(e: Entry, b: Bytes)
    requires |b| == ENTRY_BYTES
    ensures EntryForm(e) == b <==> e == Entry(Read4(b[..4]), b[4..])
  {
    Fixed4(b[..4], e.len);
    assert EntryForm(e)[..4] == Be4(e.len) && EntryForm(e)[4..] == e.digest;
    assert b == b[..4] + b[4..];
  }

  lemma {:induction false} TableAt(entries: seq<Entry>, i: nat)
    requires i < |entries|
    ensures Table(entries)[TableBytes(i)..TableBytes(i + 1)] == EntryForm(entries[i])
  {
    var last := |entries| - 1;
    var front, end := Table(entries[..last]), EntryForm(entries[last]);
    assert Table(entries) == front + end && |front| == TableBytes(last);
    if i < last {
      TableAt(entries[..last], i);
      assert TableBytes(i + 1) <= TableBytes(last);
      assert (front + end)[TableBytes(i)..TableBytes(i + 1)] == front[TableBytes(i)..TableBytes(i + 1)];
    } else {
      assert (front + end)[|front|..] == end && |front + end| == TableBytes(i + 1);
    }
  }

  lemma {:induction false} TotalBounded(entries: seq<Entry>)
    requires forall i :: 0 <= i < |entries| ==> entries[i].len <= CHUNK_BYTES
    ensures TotalLen(entries) <= CHUNK_BYTES * |entries|
  {
    if entries != [] {
      TotalBounded(entries[..|entries| - 1]);
    }
  }

  /** What the bytes of any manifest look like. */
  predicate Reads(b: Bytes, m: Manifest) {
    && |b| == EntryStart(|m.entries|)
    && Framed(b) && Fields(b, m.entries) == m && Read4(b[104..108]) == |m.entries| % U32
    && forall i :: 0 <= i < |m.entries| ==> EntryAt(b, i) == m.entries[i]
  }

  lemma SerializedParts(m: Manifest)
    ensures var b := Serialize(m);
      && |b| == EntryStart(|m.entries|) && b[..HEADER_BYTES] == Header(m) && b[HEADER_BYTES..] == Table(m.entries)
  {
    hide Header, Table;
    assert Serialize(m)[..HEADER_BYTES] == Header(m) && Serialize(m)[HEADER_BYTES..] == Table(m.entries);
  }

  /** Where the table begins at offset `o`, the entry at `i` is the table's slice `i`. */
  lemma SliceOfTail(b: Bytes, o: nat, i: nat, j: nat)
    requires i <= j && o + j <= |b|
    ensures b[o + i..o + j] == b[o..][i..j]
  {}

  lemma EntrySplit(b: Bytes, o: nat)
    requires o + ENTRY_BYTES <= |b|
    ensures var slice := b[o..o + ENTRY_BYTES]; slice[..4] == b[o..o + 4] && slice[4..] == b[o + 4..o + ENTRY_BYTES]
  {}

  lemma EntryReads(b: Bytes, m: Manifest, i: nat)
    requires |b| == EntryStart(|m.entries|) && b[HEADER_BYTES..] == Table(m.entries) && i < |m.entries|
    ensures EntryAt(b, i) == m.entries[i]
  {
    hide Table, EntryForm, Read4, EntryStart;
    EntryBounds(i, |m.entries|);
    TableAt(m.entries, i);
    SliceOfTail(b, HEADER_BYTES, TableBytes(i), TableBytes(i + 1));
    EntryFormIff(m.entries[i], b[EntryStart(i)..EntryStart(i) + ENTRY_BYTES]);
    EntrySplit(b, EntryStart(i));
  }

  lemma EntryBounds(i: nat, n: nat)
    requires i < n
    ensures EntryStart(i) == HEADER_BYTES + TableBytes(i)
    ensures EntryStart(i) + ENTRY_BYTES == EntryStart(i + 1) == HEADER_BYTES + TableBytes(i + 1) <= EntryStart(n)
  {}

  lemma SerializedReads(m: Manifest)
    ensures Reads(Serialize(m), m)
  {
    hide Serialize, Header, Table, Framed, Fields, EntryAt, Read4;
    var b := Serialize(m);
    SerializedParts(m);
    HeaderIff(b, m);
    forall i | 0 <= i < |m.entries| ensures EntryAt(b, i) == m.entries[i] {
      EntryReads(b, m, i);
    }
  }

  /** The encoding is one-to-one. */
  lemma SerializeInjective(m: Manifest, n: Manifest)
    requires Serialize(m) == Serialize(n)
    ensures m == n
  {
    SerializedReads(m);
    SerializedReads(n);
    assert m.entries == n.entries;
  }

  /** Table bytes read entry by entry. */
  function ReadTable(b: Bytes, n: nat): (entries: seq<Entry>)
    requires EntryStart(n) <= |b|
    ensures |entries| == n && forall i :: 0 <= i < n ==> entries[i] == EntryAt(b, i)
  {
    if n == 0 then [] else ReadTable(b, n - 1) + [EntryAt(b, n - 1)]
  }

  lemma EntryRead(b: Bytes, i: nat)
    requires EntryStart(i + 1) <= |b|
    ensures EntryForm(EntryAt(b, i)) == b[EntryStart(i)..EntryStart(i + 1)]
  {
    var start := EntryStart(i);
    var slice := b[start..start + ENTRY_BYTES];
    EntryFormIff(EntryAt(b, i), slice);
    assert slice[..4] == b[start..start + 4] && slice[4..] == b[start + 4..start + ENTRY_BYTES];
  }

  lemma {:induction false} TableOfRead(b: Bytes, n: nat)
    requires EntryStart(n) <= |b|
    ensures Table(ReadTable(b, n)) == b[HEADER_BYTES..EntryStart(n)]
  {
    hide EntryAt, EntryForm;
    if n > 0 {
      TableOfRead(b, n - 1);
      EntryRead(b, n - 1);
      hide Table;
      TableSnoc(ReadTable(b, n - 1), EntryAt(b, n - 1));
      Adjacent(b, HEADER_BYTES, EntryStart(n - 1), EntryStart(n));
    }
  }

  lemma TableSnoc(entries: seq<Entry>, e: Entry)
    ensures Table(entries + [e]) == Table(entries) + EntryForm(e)
  {
    assert (entries + [e])[..|entries|] == entries;
  }

  lemma Adjacent(b: Bytes, i: nat, j: nat, k: nat)
    requires i <= j <= k <= |b|
    ensures b[i..j] + b[j..k] == b[i..k]
  {
  }

  lemma ReadSerialized(b: Bytes, entries: seq<Entry>)
    requires |b| == EntryStart(|entries|) && Framed(b) && Read4(b[104..108]) == |entries| % U32
    requires entries == ReadTable(b, |entries|)
    ensures Serialize(Fields(b, entries)) == b
  {
    HeaderIff(b, Fields(b, entries));
    TableOfRead(b, |entries|);
    assert b[HEADER_BYTES..EntryStart(|entries|)] == b[HEADER_BYTES..];
    assert b == b[..HEADER_BYTES] + b[HEADER_BYTES..];
  }

  ghost predicate HasShaped(b: Bytes) { exists m :: Shaped(m) && Serialize(m) == b }

  ghost predicate HasCanonical(sha: Hash, b: Bytes) { exists m :: Canonical(sha, m) && Serialize(m) == b }

  /** The header is well formed and agrees with the length. */
  predicate Framable(b: Bytes) {
    && HEADER_BYTES <= |b| <= MAX_MANIFEST_BYTES && Framed(b) && Read4(b[100..104]) == CHUNK_BYTES
    && MIN_CHUNKS <= Read4(b[104..108]) <= MAX_CHUNKS && |b| == EntryStart(Read4(b[104..108]))
  }

  /** What the decoder's checks come to, short of the root. */
  predicate Gate(b: Bytes) {
    Framable(b) &&
    var entries := ReadTable(b, Read4(b[104..108]));
    Cut(entries) && TotalLen(entries) == Read8(b[60..68])
  }

  lemma GateIff(b: Bytes)
    ensures HasShaped(b) <==> Gate(b)
    ensures Gate(b) ==> var m := Fields(b, ReadTable(b, Read4(b[104..108]))); Shaped(m) && Serialize(m) == b
  {
    hide Be4, Read4, Be8, Read8, BigEndian, FromBigEndian, Table, Header, TotalLen, Cut, Serialize;
    if m :| Shaped(m) && Serialize(m) == b {
      SerializedReads(m);
      assert ReadTable(b, |m.entries|) == m.entries;
    }
    if Gate(b) {
      var entries := ReadTable(b, Read4(b[104..108]));
      ReadSerialized(b, entries);
      assert Shaped(Fields(b, entries));
    }
  }

  /** The table walk: stops at the first entry whose length is not canonical for its place. */
  method ReadEntries(b: Bytes, count: nat) returns (cut: bool, entries: seq<Entry>, summed: nat)
    requires |b| == EntryStart(count)
    ensures cut == Cut(ReadTable(b, count))
    ensures cut ==> entries == ReadTable(b, count) && summed == TotalLen(entries) <= CHUNK_BYTES * count
  {
    hide EntryAt, FitsAt, TotalLen;
    entries, summed, cut := [], 0, true;
    TotalSnoc([], None);
    for i := 0 to count
      invariant entries == ReadTable(b, i) && summed == TotalLen(entries)
      invariant forall k :: 0 <= k < i ==> FitsAt(entries[k].len, k, count)
    {
      var e := EntryAt(b, i);
      if !FitsAt(e.len, i, count) {
        assert ReadTable(b, count)[i] == e;
        cut := false;
        return;
      }
      TotalSnoc(entries, Some(e));
      summed := summed + e.len;
      entries := entries + [e];
    }
    FitsBounded(entries);
    TotalBounded(entries);
  }

  lemma TotalSnoc(entries: seq<Entry>, e: Option<Entry>)
    ensures TotalLen([]) == 0
    ensures e.Some? ==> TotalLen(entries + [e.value]) == TotalLen(entries) + e.value.len
  {
    if e.Some? { assert (entries + [e.value])[..|entries|] == entries; }
  }

  lemma FitsBounded(entries: seq<Entry>)
    requires Cut(entries)
    ensures forall i :: 0 <= i < |entries| ==> entries[i].len <= CHUNK_BYTES
  {
  }

  /**
   Accepts exactly the encodings of canonical manifests, and tells a wrong root from every other
   damage.  The 1 TiB bound needs no check of its own: it follows from the table.
  */
  method Decode(sha: Hash, b: Bytes) returns (r: Decoded)
    ensures r.Accepted? <==> HasCanonical(sha, b)
    ensures r.Accepted? ==>
      && Canonical(sha, r.manifest) && Serialize(r.manifest) == b
      && r.manifest.logicalLen <= MAX_LOGICAL_BYTES
    ensures r.RootMismatch? <==> HasShaped(b) && !HasCanonical(sha, b)
    ensures r.TooLarge? <==> |b| > MAX_MANIFEST_BYTES
    ensures r.ChunkCountInvalid? <==>
      |b| <= MAX_MANIFEST_BYTES && exists n: nat :: !(MIN_CHUNKS <= n <= MAX_CHUNKS) && HasHeader(b, n)
    ensures r.ChunkCountInvalid? ==> !(MIN_CHUNKS <= r.count <= MAX_CHUNKS) && HasHeader(b, r.count)
  {
    GateIff(b);
    CanonicalIsShaped(sha, b);
    HeaderCount(b);
    ShapedHeader(b);
    hide HasShaped, HasCanonical, HasHeader, Be4, Read4, Be8, Read8, Table, Header, Serialize, ValueRoot;
    if |b| > MAX_MANIFEST_BYTES { return TooLarge; }
    if |b| < HEADER_BYTES || b[..24] != MAGIC { return Malformed; }
    if Read4(b[40..44]) != KIND { return Malformed; }
    if Read4(b[100..104]) != CHUNK_BYTES { return Malformed; }
    var count := Read4(b[104..108]);
    assert HasHeader(b, count);
    if !(MIN_CHUNKS <= count <= MAX_CHUNKS) { return ChunkCountInvalid(count); }
    if |b| != EntryStart(count) { return Malformed; }
    var cut, entries, summed := ReadEntries(b, count);
    if !cut { return Malformed; }
    var m := Fields(b, entries);
    if summed != m.logicalLen { return Malformed; }
    if m.logicalLen > MAX_LOGICAL_BYTES { assert false; }
    OnlyReading(sha, b, m);
    if m.root != ValueRoot(sha, m.logicalLen, m.chunkBytes, entries) { return RootMismatch; }
    r := Accepted(m);
  }

  /** The first 108 bytes are the header of some manifest of 16 MiB chunks and `n` entries. */
  ghost predicate HasHeader(b: Bytes, n: nat) {
    |b| >= HEADER_BYTES && n < U32
    && exists m: Manifest :: m.chunkBytes == CHUNK_BYTES && |m.entries| == n && Header(m) == b[..HEADER_BYTES]
  }

  lemma HeaderCount(b: Bytes)
    ensures forall n :: HasHeader(b, n) <==>
      |b| >= HEADER_BYTES && Framed(b) && Read4(b[100..104]) == CHUNK_BYTES && n == Read4(b[104..108])
  {
    hide Header, Framed, Read4, Read8;
    forall n | HasHeader(b, n)
      ensures Framed(b) && Read4(b[100..104]) == CHUNK_BYTES && n == Read4(b[104..108])
    {
      var m: Manifest :| m.chunkBytes == CHUNK_BYTES && |m.entries| == n && Header(m) == b[..HEADER_BYTES];
      HeaderIff(b, m);
    }
    if |b| >= HEADER_BYTES && Framed(b) && Read4(b[100..104]) == CHUNK_BYTES {
      var n := Read4(b[104..108]);
      var m := Fields(b, seq(n, i => Entry(0, b[68..100])));
      HeaderIff(b, m);
      assert HasHeader(b, n);
    }
  }

  /** Bytes of a shaped manifest are not refused for their count. */
  lemma ShapedHeader(b: Bytes)
    ensures HasShaped(b) ==> Framable(b)
  {
    GateIff(b);
  }

  lemma CanonicalIsShaped(sha: Hash, b: Bytes)
    ensures HasCanonical(sha, b) ==> HasShaped(b)
  {
    if m :| Canonical(sha, m) && Serialize(m) == b {
      assert Shaped(m);
    }
  }

  lemma OnlyReading(sha: Hash, b: Bytes, m: Manifest)
    requires Serialize(m) == b
    ensures HasShaped(b) <==> Shaped(m)
    ensures HasCanonical(sha, b) <==> Canonical(sha, m)
  {
    forall n | Serialize(n) == b ensures n == m {
      SerializeInjective(m, n);
    }
  }

  // ---- Both directions ---------------------------------------------------------------

  /** A canonical manifest survives the round trip, and fits well inside the 4 MiB bound. */
  method RoundTrip(sha: Hash, m: Manifest) returns (r: Decoded)
    requires Canonical(sha, m)
    ensures r == Accepted(m) && |Serialize(m)| <= 2_359_404 <= MAX_MANIFEST_BYTES
  {
    var b := Encode(m);
    r := Decode(sha, b);
    assert HasCanonical(sha, b);
    SerializeInjective(m, r.manifest);
  }

  /** Bytes that the decoder accepts re-encode to themselves. */
  method Reencode(sha: Hash, b: Bytes) returns (r: Decoded, again: Bytes)
    ensures r.Accepted? ==> again == b
  {
    r := Decode(sha, b);
    again := [];
    if r.Accepted? {
      again := Encode(r.manifest);
    }
  }

  // ---- What the root commits to ----------------------------------------------------------

  predicate Collide(sha: Hash, x: Bytes, y: Bytes) { x != y && sha(x) == sha(y) }

  lemma RootInputSlices(logicalLen: U64Int, chunkBytes: U32Int, entries: seq<Entry>)
    ensures var b := RootInput(logicalLen, chunkBytes, entries);
      && |b| == 44 + TableBytes(|entries|) && b[..28] == ROOT_DOMAIN
      && b[28..36] == Be8(logicalLen) && b[36..40] == Be4(chunkBytes) && b[44..] == Table(entries)
  {
    hide Be4, Be8, Table;
  }

  lemma Be4Injective(m: U32Int, n: U32Int)
    requires Be4(m) == Be4(n)
    ensures m == n
  {
    Fixed4(Be4(m), m);
    Fixed4(Be4(m), n);
  }

  lemma Be8Injective(m: U64Int, n: U64Int)
    requires Be8(m) == Be8(n)
    ensures m == n
  {
    Fixed8(Be8(m), m);
    Fixed8(Be8(m), n);
  }

  lemma TableInjective(a: seq<Entry>, b: seq<Entry>)
    requires |a| == |b| && Table(a) == Table(b)
    ensures a == b
  {
    hide Table, EntryForm, Read4;
    forall i | 0 <= i < |a| ensures a[i] == b[i] {
      TableAt(a, i);
      TableAt(b, i);
      EntryFormIff(a[i], EntryForm(a[i]));
      EntryFormIff(b[i], EntryForm(a[i]));
    }
  }

  /** Different lengths, chunk sizes or tables are hashed as different bytes. */
  lemma RootInputInjective(l1: U64Int, c1: U32Int, e1: seq<Entry>, l2: U64Int, c2: U32Int, e2: seq<Entry>)
    requires RootInput(l1, c1, e1) == RootInput(l2, c2, e2)
    ensures l1 == l2 && c1 == c2 && e1 == e2
  {
    RootInputSlices(l1, c1, e1);
    RootInputSlices(l2, c2, e2);
    hide RootInput, Be4, Be8, Table;
    Be8Injective(l1, l2);
    Be4Injective(c1, c2);
    TableInjective(e1, e2);
  }

  /** Equal roots mean the same length, chunk size and table, entry by entry, unless the hash collides. */
  lemma RootCommits(sha: Hash, m: Manifest, n: Manifest)
    requires Rooted(sha, m) && Rooted(sha, n) && m.root == n.root
    requires !Collide(sha, RootInput(m.logicalLen, m.chunkBytes, m.entries),
                      RootInput(n.logicalLen, n.chunkBytes, n.entries))
    ensures m.logicalLen == n.logicalLen && m.chunkBytes == n.chunkBytes && m.entries == n.entries
  {
    hide RootInput;
    RootInputInjective(m.logicalLen, m.chunkBytes, m.entries, n.logicalLen, n.chunkBytes, n.entries);
  }

  /** A table exchanged under its root, however plausible its lengths, is always refused as a wrong root. */
  method DecodeTampered(sha: Hash, m: Manifest, other: seq<Entry>) returns (r: Decoded)
    requires Canonical(sha, m) && other != m.entries && Shaped(m.(entries := other))
    requires !Collide(sha, RootInput(m.logicalLen, m.chunkBytes, m.entries),
                      RootInput(m.logicalLen, m.chunkBytes, other))
    ensures r == RootMismatch
  {
    hide RootInput, Serialize, Shaped;
    var d := m.(entries := other);
    if Rooted(sha, d) { RootCommits(sha, m, d); }
    var b := Encode(d);
    OnlyReading(sha, b, d);
    r := Decode(sha, b);
  }
}
