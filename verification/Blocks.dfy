/** Vocabulary shared by every layer: 4 KiB pages, the codec and its verbatim rule,
    packed index entries, and the heap seen as a set of disjoint slots. */
module Blocks {

  const CBLK_SIZE: nat := 4096
  const ALLOC_GRAIN: nat := 64
  const SLOT_NONE: nat := 0xFFFF_FFFF

  newtype byte = x: int | 0 <= x < 256

  type Page = p: seq<byte> | |p| == CBLK_SIZE witness seq(CBLK_SIZE, _ => 0)

  /** What an unwritten block reads back as. */
  function ZeroPage(): Page { seq(CBLK_SIZE, _ => 0) }

  datatype Option<+T> = None | Some(value: T)

  // ------------------------------------------------------------------ codec

  /** The compression library: `None` stands for an error code or no library at all. */
  datatype Codec = Codec(compress: Page -> Option<seq<byte>>, decompress: seq<byte> -> Option<Page>)

  function NoCodec(): Codec { Codec((_: Page) => None, (_: seq<byte>) => None) }

  /** The one thing assumed of the library: what it shrank, it restores. */
  ghost predicate RoundTrips(c: Codec) {
    forall p: Page ::
      var r := c.compress(p);
      r.Some? && 0 < |r.value| < CBLK_SIZE ==> c.decompress(r.value) == Some(p)
  }

  /** Bytes to store for a page: the codec's output when it won, else the page verbatim. */
  function CompBlock(c: Codec, p: Page): (bytes: seq<byte>)
    ensures 0 < |bytes| <= CBLK_SIZE
    ensures |bytes| == CBLK_SIZE ==> bytes == p
  {
    var r := c.compress(p);
    if r.Some? && 0 < |r.value| < CBLK_SIZE then r.value else p
  }

  /** How many bytes a page takes, in terms of what the library returns for it: its output when that is
      1 to 4095 bytes long, else a whole page. */
  function StoredLen(c: Codec, p: Page): (n: nat)
    ensures 0 < n <= CBLK_SIZE
  {
    match c.compress(p)
    case Some(z) => if 1 <= |z| <= 4095 then |z| else 4096
    case None => 4096
  }

  /** The library's output is used whenever it is shorter than a page, and only then. */
  lemma StoredForm(c: Codec, p: Page)
    ensures |CompBlock(c, p)| == StoredLen(c, p)
    ensures c.compress(p) == Some(CompBlock(c, p)) || CompBlock(c, p) == p
    ensures forall z :: c.compress(p) == Some(z) && 1 <= |z| <= 4095 ==> CompBlock(c, p) == z
  {
  }

  /** A library that never wins: every page is stored whole. */
  ghost predicate Incompressible(c: Codec) { forall p: Page :: StoredLen(c, p) == CBLK_SIZE }

  lemma NoCodecIsIncompressible()
    ensures Incompressible(NoCodec()) && RoundTrips(NoCodec())
  {
  }

  /** A stored length of exactly one page means verbatim; there is no raw flag. */
  function DecompBlock(c: Codec, bytes: seq<byte>): Option<Page> {
    if |bytes| == CBLK_SIZE then Some(bytes) else c.decompress(bytes)
  }

  /** Storing and reading back is the identity on every page, whether or not the codec won. */
  lemma CodecRoundTrip(c: Codec, p: Page)
    requires RoundTrips(c)
    ensures DecompBlock(c, CompBlock(c, p)) == Some(p)
  {
    var r := c.compress(p);
    if r.Some? && 0 < |r.value| < CBLK_SIZE {
      assert c.decompress(r.value) == Some(p);
    }
  }

  // ---------------------------------------------------------- packed entries

  const GRAIN_LIMIT: nat := 0x4000_0000    // 2^30, bits 0..29
  const CLEN_LIMIT: nat := 0x2000          // 2^13, bits 30..42
  const GEN_LIMIT: nat := 0x20_0000        // 2^21, bits 43..63

  const GEN_UNIT: nat := GRAIN_LIMIT * CLEN_LIMIT

  function EntMake(grain: nat, clen: nat, gen: nat): nat {
    grain + clen * GRAIN_LIMIT + (gen % GEN_LIMIT) * GEN_UNIT
  }

  function EntGrain(e: nat): nat { e % GRAIN_LIMIT }

  function EntClen(e: nat): nat { (e / GRAIN_LIMIT) % CLEN_LIMIT }

  function EntGen(e: nat): nat { (e / GEN_UNIT) % GEN_LIMIT }

  /** The three fields of a packed entry never bleed into each other, and the entry fits 64 bits. */
  lemma EntryRoundTrip(grain: nat, clen: nat, gen: nat)
    requires grain < GRAIN_LIMIT && clen < CLEN_LIMIT
    ensures var e := EntMake(grain, clen, gen);
            EntGrain(e) == grain && EntClen(e) == clen && EntGen(e) == gen % GEN_LIMIT && e < 0x1_0000_0000_0000_0000
  {
    var g := gen % GEN_LIMIT;
    var e := EntMake(grain, clen, gen);
    assert e == grain + (clen + g * CLEN_LIMIT) * GRAIN_LIMIT;
    assert e / GRAIN_LIMIT == clen + g * CLEN_LIMIT;
    assert e == (grain + clen * GRAIN_LIMIT) + g * GEN_UNIT;
    assert e / GEN_UNIT == g;
  }

  /** Two packed entries are the same 64-bit word exactly when grain and length agree and the
      generations agree modulo 2^21: all that the reader's re-check can see. */
  lemma EntryEquality(g1: nat, c1: nat, n1: nat, g2: nat, c2: nat, n2: nat)
    requires g1 < GRAIN_LIMIT && c1 < CLEN_LIMIT && g2 < GRAIN_LIMIT && c2 < CLEN_LIMIT
    ensures EntMake(g1, c1, n1) == EntMake(g2, c2, n2)
       <==> g1 == g2 && c1 == c2 && n1 % 0x20_0000 == n2 % 0x20_0000
  {
    EntryRoundTrip(g1, c1, n1);
    EntryRoundTrip(g2, c2, n2);
  }

  // ------------------------------------------------------------------- slots

  /** Outstanding slots as the layers above the allocator see them: grain -> bytes reserved. */
  type Slots = map<nat, nat>

  predicate Apart(a: nat, alen: nat, b: nat, blen: nat) { a + alen <= b || b + blen <= a }

  /** Every slot lies in the heap and no two overlap by a single byte. */
  ghost predicate SlotsOk(slots: Slots, heap: nat) {
    && (forall g :: g in slots ==> 0 < slots[g] && ALLOC_GRAIN * g + slots[g] <= heap)
    && (forall g, h :: g in slots && h in slots && g != h ==>
          Apart(ALLOC_GRAIN * g, slots[g], ALLOC_GRAIN * h, slots[h]))
  }

  /** The bytes an entry points at. */
  function Stored(vram: seq<byte>, grain: nat, clen: nat): (bytes: seq<byte>)
    requires ALLOC_GRAIN * grain + clen <= |vram|
    ensures |bytes| == clen
  {
    vram[ALLOC_GRAIN * grain..ALLOC_GRAIN * grain + clen]
  }

  /** The bytes an entry points at, if any, lie in the heap. */
  predicate InHeap(vram: seq<byte>, e: nat) { EntClen(e) != 0 ==> ALLOC_GRAIN * EntGrain(e) + EntClen(e) <= |vram| }

  /** What the block behind entry `e` reads as; `None` is a decompression failure. */
  function PageAt(c: Codec, vram: seq<byte>, e: nat): Option<Page>
    requires InHeap(vram, e)
  {
    if EntClen(e) == 0 then Some(ZeroPage())
    else DecompBlock(c, Stored(vram, EntGrain(e), EntClen(e)))
  }

  /** Overwrite `vram` at byte `at`. */
  function Splice<T>(s: seq<T>, at: nat, patch: seq<T>): (r: seq<T>)
    requires at + |patch| <= |s|
    ensures |r| == |s|
    ensures forall i :: 0 <= i < |s| ==> r[i] == if at <= i < at + |patch| then patch[i - at] else s[i]
  {
    s[..at] + patch + s[at + |patch|..]
  }
}
