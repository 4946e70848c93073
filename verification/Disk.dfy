/** The device as the client sees it: one flat array of bytes, kept as an array of pages. */
module Disk {
  import opened Blocks

  /** The device's bytes. */
  function Flat(pages: seq<Page>): (d: seq<byte>)
    ensures |d| == CBLK_SIZE * |pages|
    ensures forall k :: 0 <= k < |d| ==> d[k] == pages[k / CBLK_SIZE][k % CBLK_SIZE]
  {
    seq(CBLK_SIZE * |pages|, k requires 0 <= k < CBLK_SIZE * |pages| => pages[k / CBLK_SIZE][k % CBLK_SIZE])
  }

  /** A page starting at byte `base` of the device, after `src` is written at byte `off`. */
  function Patched(p: Page, base: nat, off: nat, src: seq<byte>): (q: Page)
    ensures forall i :: 0 <= i < CBLK_SIZE ==> q[i] == if off <= base + i < off + |src| then src[base + i - off] else
    p[i]
  {
    seq(CBLK_SIZE, i requires 0 <= i < CBLK_SIZE => if off <= base + i < off + |src| then src[base + i - off] else p[i])
  }

  /** The pages after `src` is written at byte `off`. */
  function Overwrite(pages: seq<Page>, off: nat, src: seq<byte>): (r: seq<Page>)
    ensures |r| == |pages|
    ensures forall b :: 0 <= b < |r| ==> r[b] == Patched(pages[b], CBLK_SIZE * b, off, src)
  {
    seq(|pages|, b requires 0 <= b < |pages| => Patched(pages[b], CBLK_SIZE * b, off, src))
  }

  /** Writing to the pages is writing to the flat device: exactly the bytes of the range change. */
  lemma OverwriteIsSplice(pages: seq<Page>, off: nat, src: seq<byte>)
    requires off + |src| <= CBLK_SIZE * |pages|
    ensures Flat(Overwrite(pages, off, src)) == Splice(Flat(pages), off, src)
  {
    var l, r := Flat(Overwrite(pages, off, src)), Splice(Flat(pages), off, src);
    forall k | 0 <= k < |l|
      ensures l[k] == r[k]
    {
      var b, i := k / CBLK_SIZE, k % CBLK_SIZE;
      assert CBLK_SIZE * b + i == k;
      assert l[k] == Patched(pages[b], CBLK_SIZE * b, off, src)[i];
    }
  }

  lemma OverwriteNothing(pages: seq<Page>, off: nat)
    ensures Overwrite(pages, off, []) == pages
  {
    forall b | 0 <= b < |pages|
      ensures Overwrite(pages, off, [])[b] == pages[b]
    {
      assert Patched(pages[b], CBLK_SIZE * b, off, []) == pages[b];
    }
  }

  /** Two adjacent writes are one. */
  lemma OverwriteJoin(pages: seq<Page>, off: nat, s1: seq<byte>, s2: seq<byte>)
    ensures Overwrite(Overwrite(pages, off, s1), off + |s1|, s2) == Overwrite(pages, off, s1 + s2)
  {
    var l, r := Overwrite(Overwrite(pages, off, s1), off + |s1|, s2), Overwrite(pages, off, s1 + s2);
    forall b | 0 <= b < |pages|
      ensures l[b] == r[b]
    {
      var base := CBLK_SIZE * b;
      var p1 := Patched(pages[b], base, off, s1);
      assert l[b] == Patched(p1, base, off + |s1|, s2);
      assert l[b] == Patched(pages[b], base, off, s1 + s2);
    }
  }

  /** A write that lies inside one block. */
  lemma OverwriteOne(pages: seq<Page>, off: nat, src: seq<byte>, b: nat, boff: nat)
    requires b < |pages| && off == CBLK_SIZE * b + boff && boff + |src| <= CBLK_SIZE
    ensures Overwrite(pages, off, src) == pages[b := Splice(pages[b], boff, src)]
  {
    var r := Overwrite(pages, off, src);
    forall a | 0 <= a < |pages|
      ensures r[a] == pages[b := Splice(pages[b], boff, src)][a]
    {
      var q := Patched(pages[a], CBLK_SIZE * a, off, src);
      if a == b {
        assert q == Splice(pages[b], boff, src);
      } else {
        Untouched(pages[a], CBLK_SIZE * a, off, src);
      }
    }
  }

  lemma Untouched(p: Page, base: nat, off: nat, src: seq<byte>)
    requires off + |src| <= base || base + CBLK_SIZE <= off
    ensures Patched(p, base, off, src) == p
  {
  }

  /** The page of a run of whole pages. */
  function Slice(src: seq<byte>, i: nat): Page
    requires CBLK_SIZE * (i + 1) <= |src|
  {
    src[CBLK_SIZE * i..CBLK_SIZE * (i + 1)]
  }

  /** A write of whole blocks. */
  lemma OverwriteWhole(pages: seq<Page>, blk: nat, n: nat, src: seq<byte>, b: nat)
    requires |src| == CBLK_SIZE * n && blk + n <= |pages| && b < |pages|
    ensures Overwrite(pages, CBLK_SIZE * blk, src)[b] == if blk <= b < blk + n then Slice(src, b - blk) else pages[b]
  {
    var q := Patched(pages[b], CBLK_SIZE * b, CBLK_SIZE * blk, src);
    if blk <= b < blk + n {
      assert q == Slice(src, b - blk);
    } else {
      Untouched(pages[b], CBLK_SIZE * b, CBLK_SIZE * blk, src);
    }
  }

  // ------------------------------------------------------ half-applied writes

  /** Every block is entirely old or entirely new. */
  predicate Between(was: seq<Page>, got: seq<Page>, target: seq<Page>) {
    |was| == |got| == |target| && forall b :: 0 <= b < |got| ==> got[b] == was[b] || got[b] == target[b]
  }

  /** What a write of `src` at `off` may leave behind: all of it when it succeeds; when it does not,
      each block of the range holds its old or its new content and every other block is unchanged. */
  predicate Written(was: seq<Page>, got: seq<Page>, off: nat, src: seq<byte>, all: bool) {
    && Between(was, got, Overwrite(was, off, src))
    && (all ==> got == Overwrite(was, off, src))
  }

  lemma WrittenNothing(pages: seq<Page>, off: nat, all: bool)
    ensures Written(pages, pages, off, [], all)
  {
    OverwriteNothing(pages, off);
  }

  /** Two adjacent writes that meet on a block boundary never both touch a block, so doing one after
      the other - both, one or neither succeeding - is doing the joint write. */
  lemma WrittenJoin(was: seq<Page>, mid: seq<Page>, got: seq<Page>, off: nat, s1: seq<byte>, s2: seq<byte>, all1: bool,
      all2: bool)
    requires Written(was, mid, off, s1, all1) && Written(mid, got, off + |s1|, s2, all2)
    requires (off + |s1|) % CBLK_SIZE == 0 || s1 == [] || s2 == []
    ensures Written(was, got, off, s1 + s2, all1 && all2)
  {
    var target := Overwrite(was, off, s1 + s2);
    OverwriteJoin(was, off, s1, s2);
    OverwriteNothing(was, off);
    OverwriteNothing(mid, off + |s1|);
    if s1 == [] {
      assert s1 + s2 == s2;
      assert mid == was;
    } else if s2 == [] {
      assert s1 + s2 == s1;
      assert got == mid;
    } else {
      forall b | 0 <= b < |got|
        ensures got[b] == was[b] || got[b] == target[b]
      {
        WrittenBlock(was, mid, got, off, s1, s2, b);
      }
    }
  }

  lemma WrittenBlock(was: seq<Page>, mid: seq<Page>, got: seq<Page>, off: nat, s1: seq<byte>, s2: seq<byte>, b: nat)
    requires Between(was, mid, Overwrite(was, off, s1)) && Between(mid, got, Overwrite(mid, off + |s1|, s2))
    requires (off + |s1|) % CBLK_SIZE == 0 && b < |got|
    ensures got[b] == was[b] || got[b] == Overwrite(was, off, s1 + s2)[b]
  {
    var cut, base := off + |s1|, CBLK_SIZE * b;
    if base < cut {
      assert base + CBLK_SIZE <= cut;
      Untouched(mid[b], base, cut, s2);
      assert Patched(was[b], base, off, s1 + s2) == Patched(was[b], base, off, s1);
    } else {
      Untouched(was[b], base, off, s1);
      assert Patched(was[b], base, off, s1 + s2) == Patched(was[b], base, cut, s2);
    }
  }

  /** A write cut short on a block boundary is a half-applied whole write. */
  lemma WrittenShort(was: seq<Page>, got: seq<Page>, off: nat, s1: seq<byte>, s2: seq<byte>, all: bool)
    requires Written(was, got, off, s1, all) && ((off + |s1|) % CBLK_SIZE == 0 || s1 == [] || s2 == [])
    ensures Written(was, got, off, s1 + s2, false)
  {
    WrittenJoin(was, got, got, off, s1, s2, all, false);
  }

  // ------------------------------------------------------------- reads, trims

  /** Bytes off..off+n of the device. */
  function Range(pages: seq<Page>, off: nat, n: nat): seq<byte>
    requires off + n <= CBLK_SIZE * |pages|
  {
    Flat(pages)[off..off + n]
  }

  lemma RangeJoin(pages: seq<Page>, off: nat, n: nat, m: nat)
    requires off + n + m <= CBLK_SIZE * |pages|
    ensures Range(pages, off, n) + Range(pages, off + n, m) == Range(pages, off, n + m)
  {
  }

  /** A write reads back, and every disjoint range reads as before. */
  lemma ReadBack(pages: seq<Page>, off: nat, src: seq<byte>, off': nat, n: nat)
    requires off + |src| <= CBLK_SIZE * |pages| && off' + n <= CBLK_SIZE * |pages|
    ensures Range(Overwrite(pages, off, src), off, |src|) == src
    ensures off + |src| <= off' || off' + n <= off ==>
              Range(Overwrite(pages, off, src), off', n) == Range(pages, off', n)
  {
    OverwriteIsSplice(pages, off, src);
  }

  /** Part of one block. */
  lemma RangeOne(pages: seq<Page>, b: nat, boff: nat, n: nat)
    requires b < |pages| && boff + n <= CBLK_SIZE
    ensures Range(pages, CBLK_SIZE * b + boff, n) == pages[b][boff..boff + n]
  {
    var l, r := Range(pages, CBLK_SIZE * b + boff, n), pages[b][boff..boff + n];
    forall i | 0 <= i < n
      ensures l[i] == r[i]
    {
      assert (CBLK_SIZE * b + boff + i) / CBLK_SIZE == b && (CBLK_SIZE * b + boff + i) % CBLK_SIZE == boff + i;
    }
  }

  /** A block lies wholly inside a discarded range. */
  predicate Covered(b: nat, off: nat, len: nat) { off <= CBLK_SIZE * b && CBLK_SIZE * (b + 1) <= off + len }

  /** The pages after a discard: blocks wholly inside the range read as zeros, all others are kept. */
  function Trimmed(pages: seq<Page>, off: nat, len: nat): seq<Page> {
    seq(|pages|, b requires 0 <= b < |pages| => if Covered(b, off, len) then ZeroPage() else pages[b])
  }

  lemma TrimmedPrefix(pages: seq<Page>, off: nat, len: nat, b: nat)
    requires b < |pages|
    ensures Trimmed(pages, off, len)[b] == if Covered(b, off, len) then ZeroPage() else pages[b]
    ensures Covered(b, off, len) <==> (off + CBLK_SIZE - 1) / CBLK_SIZE <= b < (off + len) / CBLK_SIZE
  {
  }
}
