/** How a request is cut into windows of the I/O buffer. */
module Windows {
  import opened Blocks

  const IO_BUF_SIZE: nat := 64 * CBLK_SIZE
  const U64: nat := 0x1_0000_0000_0000_0000

  /** `oob`, without overflow: the whole request lies inside the device. */
  predicate OutOfBounds(size: nat, off: nat, len: nat) { off > size || len > size - off }

  /** The next window of a request with `remaining` bytes to go at `voff`, in 64-bit arithmetic: all of it
      if that fits the 256 KiB buffer, else a buffer full, less than one block pulled back to end on a
      block boundary. */
  function WindowLen(voff: nat, remaining: nat): (n: nat)
    requires voff < U64
    ensures remaining > 0 ==> 0 < n <= remaining
    ensures n <= 0x4_0000 && (remaining <= 0x4_0000 ==> n == remaining)
    ensures n < remaining ==> n > 0x3_F000
    ensures voff + remaining < U64 && n < remaining ==> (voff + n) % CBLK_SIZE == 0
  {
    var chunk := if remaining > IO_BUF_SIZE then IO_BUF_SIZE else remaining;
    if chunk < remaining then
      var end := (voff + chunk) % U64 / CBLK_SIZE * CBLK_SIZE;
      if end > voff then end - voff else chunk
    else chunk
  }

  datatype Window = Window(off: nat, len: nat)

  function Cut(voff: nat, remaining: nat): seq<Window>
    requires voff < U64
    decreases remaining
  {
    if remaining == 0 then []
    else
      var n := WindowLen(voff, remaining);
      [Window(voff, n)] + Cut((voff + n) % U64, remaining - n)
  }

  function Total(ws: seq<Window>): nat { if ws == [] then 0 else ws[0].len + Total(ws[1..]) }

  /** Whatever the offset - even one about to wrap - exactly the request's bytes are taken off the
      wire, so an out-of-bounds write leaves the stream at the next header. */
  lemma {:induction false} CutDrainsExactly(voff: nat, remaining: nat)
    requires voff < U64
    ensures Total(Cut(voff, remaining)) == remaining
    ensures forall i :: 0 <= i < |Cut(voff, remaining)| ==> 0 < Cut(voff, remaining)[i].len <= IO_BUF_SIZE
    decreases remaining
  {
    if remaining > 0 {
      var n := WindowLen(voff, remaining);
      var rest := Cut((voff + n) % U64, remaining - n);
      CutDrainsExactly((voff + n) % U64, remaining - n);
      assert Cut(voff, remaining)[1..] == rest;
    }
  }

  /** The windows of a request inside the device follow each other without gap or overlap from its
      first byte to its last, and every cut between two of them is a block boundary: only the
      request's own first and last blocks can be partial. */
  ghost predicate Tiles(ws: seq<Window>, off: nat, len: nat) {
    if len == 0 then ws == []
    else
      && ws != [] && ws[0].off == off && 0 < ws[0].len <= len && ws[0].len <= IO_BUF_SIZE
      && (ws[0].len < len ==> (off + ws[0].len) % CBLK_SIZE == 0)
      && Tiles(ws[1..], off + ws[0].len, len - ws[0].len)
  }

  lemma CutStep(off: nat, len: nat)
    requires off + len < U64 && len > 0
    ensures var n, ws := WindowLen(off, len), Cut(off, len);
            0 < n <= len && ws != [] && ws[0] == Window(off, n) && ws[1..] == Cut(off + n, len - n)
  {
    hide WindowLen;
    assert (off + WindowLen(off, len)) % U64 == off + WindowLen(off, len);
  }

  lemma {:induction false} CutTiles(off: nat, len: nat)
    requires off + len < U64
    ensures Tiles(Cut(off, len), off, len)
    decreases len
  {
    if len > 0 {
      CutStep(off, len);
      hide WindowLen, Cut;
      var n := WindowLen(off, len);
      CutTiles(off + n, len - n);
    }
  }

  ghost predicate InWindow(w: Window, b: nat) { w.off <= b < w.off + w.len }

  /** Every byte of a tiled request is in exactly one window, and no other byte is in any. */
  lemma {:induction false} TilesCoverOnce(ws: seq<Window>, off: nat, len: nat, b: nat)
    requires Tiles(ws, off, len)
    ensures (exists i :: 0 <= i < |ws| && InWindow(ws[i], b)) <==> off <= b < off + len
    ensures forall i, j :: 0 <= i < |ws| && 0 <= j < |ws| && InWindow(ws[i], b) && InWindow(ws[j], b) ==> i == j
    decreases len
  {
    if len > 0 {
      var rest := ws[1..];
      TilesCoverOnce(rest, off + ws[0].len, len - ws[0].len, b);
      assert forall i :: 0 < i < |ws| ==> ws[i] == rest[i - 1];
      if b < off + ws[0].len {
        assert forall i :: 0 <= i < |rest| ==> !InWindow(rest[i], b);
      }
      if exists i :: 0 <= i < |rest| && InWindow(rest[i], b) {
        var i :| 0 <= i < |rest| && InWindow(rest[i], b);
        assert InWindow(ws[i + 1], b);
      }
      if off <= b < off + ws[0].len {
        assert InWindow(ws[0], b);
      }
    }
  }

  /** A window's two ends are block boundaries unless they are the request's own. */
  lemma {:induction false} OnlyOuterEdgesPartial(ws: seq<Window>, off: nat, len: nat, i: nat)
    requires Tiles(ws, off, len) && i < |ws|
    ensures i > 0 ==> ws[i].off % CBLK_SIZE == 0
    ensures i + 1 < |ws| ==> (ws[i].off + ws[i].len) % CBLK_SIZE == 0
    decreases len
  {
    if len > 0 {
      var rest := ws[1..];
      if i > 0 {
        OnlyOuterEdgesPartial(rest, off + ws[0].len, len - ws[0].len, i - 1);
      }
      if ws[0].len == len { assert rest == []; }
    }
  }
}
