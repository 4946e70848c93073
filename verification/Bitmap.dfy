/** One extent's slot bitmap. A row holds one flag per bit (true = taken); a 64-bit word of the
    original is the run of 64 flags starting at a multiple of 64. */
module Bitmap {

  /** Number of clear bits. */
  function Clear(row: seq<bool>): (k: nat)
    ensures k <= |row|
  {
    if row == [] then 0 else Clear(row[..|row| - 1]) + if row[|row| - 1] then 0 else 1
  }

  lemma {:induction false} ClearAfterSet(row: seq<bool>, i: nat)
    requires i < |row| && !row[i]
    ensures Clear(row[i := true]) == Clear(row) - 1
  {
    var m := |row| - 1;
    if i < m {
      assert row[i := true][..m] == row[..m][i := true];
      ClearAfterSet(row[..m], i);
    } else {
      assert row[i := true][..m] == row[..m];
    }
  }

  lemma ClearAfterUnset(row: seq<bool>, i: nat)
    requires i < |row| && row[i]
    ensures Clear(row[i := false]) == Clear(row) + 1
  {
    ClearAfterSet(row[i := false], i);
    assert row[i := false][i := true] == row;
  }

  /** A positive count means some bit really is clear. */
  lemma {:induction false} ClearWitness(row: seq<bool>)
    requires Clear(row) > 0
    ensures exists i :: 0 <= i < |row| && !row[i]
  {
    var m := |row| - 1;
    if row[m] {
      ClearWitness(row[..m]);
      var i :| 0 <= i < m && !row[..m][i];
      assert !row[i];
    } else {
      assert !row[m];
    }
  }

  /** With everything from `n` up taken, the count is at most n, and is n exactly when nothing
      below n is taken. */
  lemma {:induction false} ClearBound(row: seq<bool>, n: nat)
    requires n <= |row| && forall i :: n <= i < |row| ==> row[i]
    ensures Clear(row) <= n
    ensures Clear(row) == n <==> forall i :: 0 <= i < n ==> !row[i]
  {
    if row != [] {
      var m := |row| - 1;
      if n <= m {
        ClearBound(row[..m], n);
        assert forall i :: 0 <= i < n ==> row[..m][i] == row[i];
      } else {
        ClearBound(row[..m], m);
        assert forall i :: 0 <= i < m ==> row[..m][i] == row[i];
      }
    }
  }

  predicate WordFull(row: seq<bool>, w: nat)
    requires 64 * w + 64 <= |row|
  {
    forall b :: 64 * w <= b < 64 * w + 64 ==> row[b]
  }

  /** The invariant behind the resume hint: `nfree` counts the clear bits, the unusable tail is
      marked taken, and every word before the hint is full. */
  ghost predicate RowOk(row: seq<bool>, words: nat, nslots: nat, nfree: nat, hint: nat) {
    && |row| == 64 * words
    && nslots <= |row|
    && hint < words
    && nfree == Clear(row)
    && (forall i :: nslots <= i < |row| ==> row[i])
    && (forall w :: 0 <= w < hint ==> WordFull(row, w))
  }

  /** Plain first fit: the lowest clear bit. */
  ghost predicate IsLowestClear(row: seq<bool>, slot: nat) {
    slot < |row| && !row[slot] && forall i :: 0 <= i < slot ==> row[i]
  }

  function LowestFrom(row: seq<bool>, i: nat): (k: nat)
    requires i <= |row|
    ensures i <= k <= |row| && (forall j :: i <= j < k ==> row[j]) && (k < |row| ==> !row[k])
    decreases |row| - i
  {
    if i < |row| && row[i] then LowestFrom(row, i + 1) else i
  }

  /** The reference: scan every bit from the start. */
  function Lowest(row: seq<bool>): nat { LowestFrom(row, 0) }

  /** The lowest clear bit of a word that has one. */
  method LowestClearInWord(row: seq<bool>, w: nat) returns (b: nat)
    requires 64 * w + 64 <= |row| && !WordFull(row, w)
    ensures b < 64 && !row[64 * w + b]
    ensures forall i :: 64 * w <= i < 64 * w + b ==> row[i]
  {
    b := 0;
    while row[64 * w + b]
      invariant b < 64
      invariant forall i :: 64 * w <= i < 64 * w + b ==> row[i]
      decreases 64 - b
    {
      if b == 63 {
        assert WordFull(row, w);
        assert false;
      }
      b := b + 1;
    }
  }

  /** Bits covered by full words are all set. */
  lemma FullWordsCover(row: seq<bool>, words: nat, w: nat, i: nat)
    requires |row| == 64 * words && w <= words && i < 64 * w
    requires forall v :: 0 <= v < w ==> WordFull(row, v)
    ensures row[i]
  {
    assert WordFull(row, i / 64);
  }

  /** Claiming the lowest clear bit keeps the row invariant with the hint moved to its word. */
  lemma TakeKeepsRow(row: seq<bool>, words: nat, nslots: nat, nfree: nat, w: nat, b: nat)
    requires |row| == 64 * words && nslots <= |row| && w < words && b < 64
    requires nfree == Clear(row)
    requires forall i :: nslots <= i < |row| ==> row[i]
    requires forall v :: 0 <= v < w ==> WordFull(row, v)
    requires !row[64 * w + b]
    ensures nfree > 0
    ensures RowOk(row[64 * w + b := true], words, nslots, nfree - 1, w)
  {
    var s := 64 * w + b;
    ClearAfterSet(row, s);
    var row' := row[s := true];
    forall v | 0 <= v < w
      ensures WordFull(row', v)
    {
      assert WordFull(row, v);
    }
  }

  /** Releasing a slot keeps the row invariant, pulling the hint back when it is behind. */
  lemma ReleaseKeepsRow(row: seq<bool>, words: nat, nslots: nat, nfree: nat, hint: nat, slot: nat)
    requires RowOk(row, words, nslots, nfree, hint)
    requires slot < nslots && row[slot]
    ensures RowOk(row[slot := false], words, nslots, nfree + 1, if slot / 64 < hint then slot / 64 else hint)
  {
    ClearAfterUnset(row, slot);
    var row' := row[slot := false];
    var h := if slot / 64 < hint then slot / 64 else hint;
    forall v | 0 <= v < h
      ensures WordFull(row', v)
    {
      assert WordFull(row, v);
    }
  }

  /** A fresh row: slots below `n` clear, the tail taken. */
  function FreshRow(words: nat, n: nat): (row: seq<bool>)
    ensures |row| == 64 * words
  {
    seq(64 * words, i requires 0 <= i => i >= n)
  }

  lemma FreshRowOk(words: nat, n: nat)
    requires 0 < words && n <= 64 * words
    ensures RowOk(FreshRow(words, n), words, n, n, 0)
  {
    ClearBound(FreshRow(words, n), n);
  }

  /** While a slot is free the scan stops before wrapping, so its failure return is unreachable. */
  lemma ScanStopsEarly(row: seq<bool>, words: nat, hint: nat, i: nat)
    requires |row| == 64 * words && hint < words && Clear(row) > 0
    requires forall v :: 0 <= v < hint ==> WordFull(row, v)
    requires forall v :: hint <= v < hint + i && v < words ==> WordFull(row, v)
    ensures hint + i < words
  {
    ClearWitness(row);
    var j :| 0 <= j < |row| && !row[j];
    assert !WordFull(row, j / 64);
  }

  /** The circular scan from the resume hint. Started mid-row and allowed to wrap, it still finds
      what plain first fit would: the lowest clear bit, with every word before it full. */
  method ScanFromHint(row: seq<bool>, words: nat, nslots: nat, nfree: nat, hint: nat) returns (w: nat, b: nat)
    requires RowOk(row, words, nslots, nfree, hint) && nfree > 0
    ensures w < words && b < 64 && IsLowestClear(row, 64 * w + b) && 64 * w + b == Lowest(row)
  {
    var i := 0;
    w := hint;
    while i < words && WordFull(row, w)
      invariant 0 <= i <= words
      invariant w == if hint + i < words then hint + i else hint + i - words
      invariant forall v :: hint <= v < hint + i && v < words ==> WordFull(row, v)
    {
      i := i + 1;
      w := hint + i;
      if w >= words {
        w := w - words;
      }
    }
    ScanStopsEarly(row, words, hint, i);
    b := LowestClearInWord(row, w);
    forall j | 0 <= j < 64 * w + b
      ensures row[j]
    {
      if j < 64 * w { FullWordsCover(row, words, w, j); }
    }
  }

  /** The bitmap `ext_init` lays down, word by word: clear below `nslots`, taken from there on. */
  method FillBitmap(words: nat, nslots: nat) returns (row: seq<bool>)
    requires nslots <= 64 * words
    ensures row == FreshRow(words, nslots)
  {
    var full, rem := nslots / 64, nslots % 64;
    row := seq(64 * words, _ => false);
    var w := full;
    if rem != 0 {
      row := row[..64 * full + rem] + seq(64 - rem, _ => true) + row[64 * full + 64..];
      w := full + 1;
    }
    while w < words
      invariant full <= w <= words && |row| == 64 * words && 64 * w >= nslots
      invariant forall i :: 0 <= i < 64 * w ==> row[i] == (i >= nslots)
    {
      row := row[..64 * w] + seq(64, _ => true) + row[64 * w + 64..];
      w := w + 1;
    }
  }
}
