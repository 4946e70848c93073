/** Slot addresses: (extent, slot, class) <-> grain, and the table of outstanding slots. */
module Grains {
  import opened Blocks
  import opened Bitmap
  import opened ExtentLists

  /** Words per extent bitmap for EXTENT_SHIFT in 14..20: 2^(shift-12). */
  function BitmapWords(shift: nat): nat
    requires 14 <= shift <= 20
  {
    [4, 8, 16, 32, 64, 128, 256][shift - 14]
  }

  /** EXT_GRAINS: 64-byte grains per extent. */
  function ExtGrains(words: nat): nat { 64 * words }

  /** Product and quotient as repeated addition and subtraction. `MulIsProduct` and
      `QuotIsDivision` identify them with * and /; written this way an address is an atom to the
      solver until a lemma opens it. */
  function Mul(n: nat, k: nat): nat { if n == 0 then 0 else Mul(n - 1, k) + k }

  function Quot(a: nat, d: nat): nat
    requires d > 0
  {
    if a < d then 0 else Quot(a - d, d) + 1
  }

  lemma {:induction false} MulIsProduct(n: nat, k: nat)
    ensures Mul(n, k) == n * k
  {
    if n > 0 {
      MulIsProduct(n - 1, k);
      assert (n - 1) * k + k == n * k;
    }
  }

  lemma NonzeroMultiple(z: int, d: int)
    requires z != 0 && d >= 0
    ensures z * d >= d || z * d <= -d
  {
    if z > 0 {
      assert z * d == (z - 1) * d + d;
    } else {
      assert z * d == -((-z - 1) * d) - d;
    }
  }

  lemma QuotRem(d: nat, q: nat, r: nat)
    requires r < d
    ensures (q * d + r) / d == q && (q * d + r) % d == r
  {
    var x := q * d + r;
    var z := x / d - q;
    assert z * d == (x / d) * d - q * d;
    if z != 0 { NonzeroMultiple(z, d); }
  }

  lemma {:induction false} QuotIsDivision(a: nat, d: nat)
    requires d > 0
    ensures Quot(a, d) == a / d
  {
    if a < d {
      QuotRem(d, 0, a);
    } else {
      QuotIsDivision(a - d, d);
      var q := (a - d) / d;
      assert (q + 1) * d == q * d + d;
      QuotRem(d, q + 1, (a - d) % d);
    }
  }

  lemma {:induction false} MulMono(n: nat, m: nat, k: nat)
    requires n <= m
    ensures Mul(n, k) <= Mul(m, k)
  {
    if n < m { MulMono(n, m - 1, k); }
  }

  lemma {:induction false} QuotFits(a: nat, d: nat)
    requires d > 0
    ensures Mul(Quot(a, d), d) <= a
    ensures d <= a ==> Quot(a, d) > 0
  {
    if a >= d { QuotFits(a - d, d); }
  }

  lemma {:induction false} QuotShrinks(a: nat, d: nat)
    requires d > 0
    ensures Quot(a, d) <= a
  {
    if a >= d { QuotShrinks(a - d, d); }
  }

  /** Slots of a class per extent. */
  function NSlots(words: nat, cls: nat): nat { Quot(ExtGrains(words), cls + 1) }

  /** An extent is carved completely: what is left over is less than one slot. */
  lemma CarvedWhole(words: nat, cls: nat)
    ensures NSlots(words, cls) * (cls + 1) <= 64 * words < (NSlots(words, cls) + 1) * (cls + 1)
  {
    var a, d := ExtGrains(words), cls + 1;
    QuotIsDivision(a, d);
    assert a == (a / d) * d + a % d;
    assert (a / d + 1) * d == (a / d) * d + d;
  }

  function GrainOf(words: nat, ei: nat, k: nat, cls: nat): nat { Mul(ei, ExtGrains(words)) + Mul(k, cls + 1) }

  /** A slot never runs off the end of its extent. */
  lemma SlotFits(words: nat, k: nat, cls: nat)
    requires k < NSlots(words, cls)
    ensures Mul(k, cls + 1) + cls + 1 <= ExtGrains(words)
  {
    QuotFits(ExtGrains(words), cls + 1);
    MulMono(k + 1, NSlots(words, cls), cls + 1);
  }

  /** What `slot_free` computes from the grain alone is the extent and slot it was made from. */
  lemma DecodeGrain(words: nat, ei: nat, k: nat, cls: nat)
    requires words > 0 && k < NSlots(words, cls)
    ensures var g := GrainOf(words, ei, k, cls);
            g / ExtGrains(words) == ei && (g % ExtGrains(words)) / (cls + 1) == k
  {
    SlotFits(words, k, cls);
    MulIsProduct(ei, ExtGrains(words));
    MulIsProduct(k, cls + 1);
    QuotRem(ExtGrains(words), ei, k * (cls + 1));
    QuotRem(cls + 1, k, 0);
  }

  /** Distinct slots never share a grain, whatever their extents' classes. */
  lemma GrainsApart(words: nat, ei: nat, k: nat, cls: nat, ej: nat, m: nat, cls': nat)
    requires k < NSlots(words, cls) && m < NSlots(words, cls')
    requires ei < ej || (ei == ej && cls == cls' && k < m)
    ensures GrainOf(words, ei, k, cls) + cls + 1 <= GrainOf(words, ej, m, cls')
  {
    SlotFits(words, k, cls);
    if ei < ej {
      MulMono(ei + 1, ej, ExtGrains(words));
    } else {
      MulMono(k + 1, m, cls + 1);
    }
  }

  lemma GrainBound(words: nat, ei: nat, k: nat, cls: nat, n: nat)
    requires k < NSlots(words, cls) && ei < n
    ensures GrainOf(words, ei, k, cls) + cls + 1 <= Mul(n, ExtGrains(words))
  {
    SlotFits(words, k, cls);
    MulMono(ei + 1, n, ExtGrains(words));
  }

  // ------------------------------------------------- outstanding slot table

  datatype Spot = Spot(ei: nat, k: nat)

  function SpotGrain(words: nat, ext: seq<Extent>, s: Spot): nat
    requires s.ei < |ext|
  {
    GrainOf(words, s.ei, s.k, ext[s.ei].cls)
  }

  /** A slot is taken when its extent is committed and its bit is set. */
  ghost predicate Taken(ext: seq<Extent>, bm: seq<seq<bool>>, s: Spot) {
    && s.ei < |ext| == |bm|
    && ext[s.ei].used && s.k < ext[s.ei].nslots
    && s.k < |bm[s.ei]| && bm[s.ei][s.k]
  }

  /** `table` lists exactly the taken slots under the grain each was handed out as. */
  ghost predicate Tracks(words: nat, ext: seq<Extent>, bm: seq<seq<bool>>, table: map<nat, Spot>) {
    && (forall g :: g in table ==> Taken(ext, bm, table[g]) && g == SpotGrain(words, ext, table[g]))
    && (forall s :: Taken(ext, bm, s) ==> SpotGrain(words, ext, s) in table && table[SpotGrain(words, ext, s)] == s)
  }

  ghost predicate ExtentOk(words: nat, e: Extent, row: seq<bool>) {
    && |row| == 64 * words
    && (e.used ==>
          && e.cls < NCLASS && e.nslots == NSlots(words, e.cls)
          && RowOk(row, words, e.nslots, e.nfree, e.hint))
  }

  ghost predicate ExtentsOk(words: nat, ext: seq<Extent>, bm: seq<seq<bool>>) {
    |ext| == |bm| && forall i :: 0 <= i < |ext| ==> ExtentOk(words, ext[i], bm[i])
  }

  lemma SpotInjective(words: nat, ext: seq<Extent>, bm: seq<seq<bool>>, a: Spot, b: Spot)
    requires ExtentsOk(words, ext, bm)
    requires a.ei < |ext| && b.ei < |ext| && ext[a.ei].used && ext[b.ei].used
    requires a.k < ext[a.ei].nslots && b.k < ext[b.ei].nslots && a != b
    ensures var ga, gb := SpotGrain(words, ext, a), SpotGrain(words, ext, b);
            ga + ext[a.ei].cls + 1 <= gb || gb + ext[b.ei].cls + 1 <= ga
  {
    assert ExtentOk(words, ext[a.ei], bm[a.ei]) && ExtentOk(words, ext[b.ei], bm[b.ei]);
    if a.ei < b.ei || (a.ei == b.ei && a.k < b.k) {
      GrainsApart(words, a.ei, a.k, ext[a.ei].cls, b.ei, b.k, ext[b.ei].cls);
    } else {
      GrainsApart(words, b.ei, b.k, ext[b.ei].cls, a.ei, a.k, ext[a.ei].cls);
    }
  }

  /** Bytes behind each outstanding grain. */
  ghost function SlotsOf(ext: seq<Extent>, table: map<nat, Spot>): Slots
    requires forall g :: g in table ==> table[g].ei < |ext|
  {
    map g | g in table :: ALLOC_GRAIN * (ext[table[g].ei].cls + 1)
  }

  /** All outstanding slots lie inside the heap and are pairwise disjoint. */
  lemma SlotsDisjoint(words: nat, ext: seq<Extent>, bm: seq<seq<bool>>, table: map<nat, Spot>)
    requires ExtentsOk(words, ext, bm) && Tracks(words, ext, bm, table)
    ensures SlotsOk(SlotsOf(ext, table), ALLOC_GRAIN * Mul(|ext|, ExtGrains(words)))
  {
    var slots := SlotsOf(ext, table);
    forall g | g in slots
      ensures 0 < slots[g] && ALLOC_GRAIN * g + slots[g] <= ALLOC_GRAIN * Mul(|ext|, ExtGrains(words))
    {
      var s := table[g];
      assert ExtentOk(words, ext[s.ei], bm[s.ei]);
      GrainBound(words, s.ei, s.k, ext[s.ei].cls, |ext|);
    }
    forall g, h | g in slots && h in slots && g != h
      ensures Apart(ALLOC_GRAIN * g, slots[g], ALLOC_GRAIN * h, slots[h])
    {
      SpotInjective(words, ext, bm, table[g], table[h]);
    }
  }

  /** Setting a clear bit adds exactly one slot, under a grain nobody holds. */
  lemma TakeTracks(words: nat, ext: seq<Extent>, bm: seq<seq<bool>>, table: map<nat, Spot>, e: Extent, s: Spot)
    requires ExtentsOk(words, ext, bm) && Tracks(words, ext, bm, table)
    requires s.ei < |ext| && ext[s.ei].used && s.k < ext[s.ei].nslots && !bm[s.ei][s.k]
    requires e.used && e.cls == ext[s.ei].cls && e.nslots == ext[s.ei].nslots
    ensures var g := SpotGrain(words, ext, s);
            && g !in table
            && Tracks(words, ext[s.ei := e], bm[s.ei := bm[s.ei][s.k := true]], table[g := s])
  {
    var g := SpotGrain(words, ext, s);
    var ext', bm', table' := ext[s.ei := e], bm[s.ei := bm[s.ei][s.k := true]], table[g := s];
    assert forall t: Spot :: t.ei < |ext| ==> SpotGrain(words, ext', t) == SpotGrain(words, ext, t);
    assert forall t: Spot :: Taken(ext', bm', t) <==> t == s || Taken(ext, bm, t);
    if g in table {
      SpotInjective(words, ext, bm, table[g], s);
    }
    forall t | Taken(ext', bm', t)
      ensures SpotGrain(words, ext', t) in table' && table'[SpotGrain(words, ext', t)] == t
    {
      if t != s {
        SpotInjective(words, ext, bm, t, s);
      }
    }
  }

  /** Clearing a taken bit removes exactly that slot. */
  lemma ReleaseTracks(words: nat, ext: seq<Extent>, bm: seq<seq<bool>>, table: map<nat, Spot>, e: Extent, g: nat)
    requires ExtentsOk(words, ext, bm) && Tracks(words, ext, bm, table) && g in table
    requires var x := ext[table[g].ei]; e.used && e.cls == x.cls && e.nslots == x.nslots
    ensures var s := table[g];
            Tracks(words, ext[s.ei := e], bm[s.ei := bm[s.ei][s.k := false]], table - {g})
  {
    var s := table[g];
    var ext', bm', table' := ext[s.ei := e], bm[s.ei := bm[s.ei][s.k := false]], table - {g};
    assert forall t: Spot :: t.ei < |ext| ==> SpotGrain(words, ext', t) == SpotGrain(words, ext, t);
    assert forall t: Spot :: Taken(ext', bm', t) <==> t != s && Taken(ext, bm, t);
    forall t | Taken(ext', bm', t)
      ensures SpotGrain(words, ext', t) in table' && table'[SpotGrain(words, ext', t)] == t
    {
      SpotInjective(words, ext, bm, t, s);
    }
  }

  /** An extent with no taken slot can change class, or be given up, without touching the table. */
  lemma RecastTracks(words: nat, ext: seq<Extent>, bm: seq<seq<bool>>, table: map<nat, Spot>, ei: nat, e: Extent,
      row: seq<bool>)
    requires |ext| == |bm| && Tracks(words, ext, bm, table) && ei < |ext|
    requires forall k :: !Taken(ext, bm, Spot(ei, k))
    requires e.used ==> forall k :: 0 <= k < e.nslots && k < |row| ==> !row[k]
    ensures Tracks(words, ext[ei := e], bm[ei := row], table)
  {
    var ext', bm' := ext[ei := e], bm[ei := row];
    assert forall t: Spot :: t.ei < |ext| && t.ei != ei ==> SpotGrain(words, ext', t) == SpotGrain(words, ext, t);
    assert forall t: Spot :: Taken(ext, bm, t) ==> t == Spot(t.ei, t.k);
    assert forall t: Spot :: Taken(ext, bm, t) ==> t.ei != ei;
    assert forall t: Spot :: Taken(ext', bm', t) <==> Taken(ext, bm, t);
  }
}
