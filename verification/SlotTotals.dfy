/** The bytes behind a set of slots. */
module SlotTotals {
  import opened Blocks
  import opened Grains

  ghost function Bytes(slots: Slots): nat
    decreases slots.Keys
  {
    if slots == map[] then 0
    else
      var g :| g in slots;
      slots[g] + Bytes(slots - {g})
  }

  lemma {:induction false} BytesWithout(slots: Slots, g: nat)
    requires g in slots
    ensures Bytes(slots) == slots[g] + Bytes(slots - {g})
    decreases slots.Keys
  {
    var h :| h in slots && Bytes(slots) == slots[h] + Bytes(slots - {h});
    if h != g {
      BytesWithout(slots - {h}, g);
      BytesWithout(slots - {g}, h);
      assert slots - {h} - {g} == slots - {g} - {h};
    }
  }

  /** Slots of one size, on top of others. */
  lemma {:induction false} BytesUniform(slots: Slots, some: set<nat>, size: nat)
    requires some <= slots.Keys && forall g :: g in some ==> slots[g] == size
    ensures Bytes(slots) == Mul(|some|, size) + Bytes(slots - some)
    decreases some
  {
    if some == {} {
      assert slots - some == slots;
    } else {
      var g :| g in some;
      BytesWithout(slots, g);
      BytesUniform(slots - {g}, some - {g}, size);
      assert slots - {g} - (some - {g}) == slots - some;
      assert |some| == |some - {g}| + 1;
    }
  }
}
