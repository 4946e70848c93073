/** The block store on values: the index, the device memory and the outstanding slots, and the
    array of pages they stand for. */
module StoreModel {
  import opened Blocks
  import opened Sums

  /** `pages` is what the device holds, block by block; `owner` says which block each indexed slot
      belongs to. Both are proof bookkeeping. */
  datatype Store = Store(index: seq<nat>, mem: seq<byte>, slots: Slots, owner: map<nat, nat>, pages: seq<Page>)

  /** The entry of block b decodes to its page, out of a slot no other block uses. */
  ghost predicate EntryOk(c: Codec, s: Store, b: nat)
    requires b < |s.index| == |s.pages|
  {
    var g, n := EntGrain(s.index[b]), EntClen(s.index[b]);
    && n <= CBLK_SIZE
    && (n == 0 ==> s.pages[b] == ZeroPage())
    && (n != 0 ==>
          && g in s.slots && g in s.owner && s.owner[g] == b
          && n <= s.slots[g] && ALLOC_GRAIN * g + s.slots[g] <= |s.mem|
          && DecompBlock(c, Stored(s.mem, g, n)) == Some(s.pages[b]))
  }

  ghost predicate OwnsOk(s: Store, g: nat)
    requires g in s.owner
  {
    g in s.slots && s.owner[g] < |s.index| && EntClen(s.index[s.owner[g]]) != 0 && EntGrain(s.index[s.owner[g]]) == g
  }

  ghost predicate StoreOk(c: Codec, s: Store) {
    && |s.index| == |s.pages| && |s.mem| <= ALLOC_GRAIN * GRAIN_LIMIT && SlotsOk(s.slots, |s.mem|)
    && (forall b :: 0 <= b < |s.index| ==> EntryOk(c, s, b))
    && (forall g :: g in s.owner ==> OwnsOk(s, g))
  }

  /** Slots no entry points at: reservations, and slots stranded by a failed copy. */
  ghost function Spare(s: Store): set<nat> { s.slots.Keys - s.owner.Keys }

  /** The stored form of a page is in place in a reserved slot. */
  ghost predicate Placed(c: Codec, s: Store, page: Page, g: nat) {
    var bytes := CompBlock(c, page);
    && g in Spare(s) && |bytes| <= s.slots[g] && ALLOC_GRAIN * g + s.slots[g] <= |s.mem| && g < GRAIN_LIMIT
    && Stored(s.mem, g, |bytes|) == bytes
  }

  // ------------------------------------------------------------ operations

  function Grabbed(s: Store, g: nat, size: nat): Store { s.(slots := s.slots[g := size]) }

  function Dropped(s: Store, g: nat): Store { s.(slots := s.slots - {g}) }

  function Uploaded(s: Store, g: nat, bytes: seq<byte>): Store
    requires ALLOC_GRAIN * g + |bytes| <= |s.mem|
  {
    s.(mem := Splice(s.mem, ALLOC_GRAIN * g, bytes))
  }

  function Disowned(s: Store, b: nat): map<nat, nat>
    requires b < |s.index|
  {
    if EntClen(s.index[b]) != 0 then s.owner - {EntGrain(s.index[b])} else s.owner
  }

  /** A new entry for block b; the displaced slot becomes spare. */
  function Published(s: Store, b: nat, g: nat, clen: nat, page: Page): Store
    requires b < |s.index| == |s.pages|
  {
    s.(index := s.index[b := EntMake(g, clen, EntGen(s.index[b]) + 1)],
       owner := if clen != 0 then Disowned(s, b)[g := b] else Disowned(s, b),
       pages := s.pages[b := page])
  }

  // ------------------------------------------------------ what each one keeps

  lemma EntryFact(c: Codec, s: Store, b: nat)
    requires StoreOk(c, s) && b < |s.index|
    ensures |s.pages| == |s.index| && EntryOk(c, s, b) && InHeap(s.mem, s.index[b])
    ensures PageAt(c, s.mem, s.index[b]) == Some(s.pages[b])
  {
    hide EntClen, EntGrain, DecompBlock;
    assert EntryOk(c, s, b);
  }

  lemma ShapeOk(c: Codec, s: Store)
    requires StoreOk(c, s)
    ensures |s.index| == |s.pages|
  {
  }

  lemma GrabKeeps(c: Codec, s: Store, g: nat, size: nat)
    requires StoreOk(c, s) && g !in s.slots && SlotsOk(s.slots[g := size], |s.mem|)
    ensures StoreOk(c, Grabbed(s, g, size)) && g !in Spare(s) && Spare(Grabbed(s, g, size)) == Spare(s) + {g}
  {
    var s' := Grabbed(s, g, size);
    hide EntClen, EntGrain, DecompBlock, SlotsOk;
    forall h | h in s.owner
      ensures h in s.slots
    {
      assert OwnsOk(s, h);
    }
    assert g !in s.owner;
    forall b | 0 <= b < |s.index|
      ensures EntryOk(c, s', b)
    {
      assert EntryOk(c, s, b);
    }
    forall h | h in s'.owner
      ensures OwnsOk(s', h)
    {
      assert OwnsOk(s, h);
    }
  }

  lemma DropKeeps(c: Codec, s: Store, g: nat)
    requires StoreOk(c, s) && g in Spare(s)
    ensures StoreOk(c, Dropped(s, g)) && Spare(Dropped(s, g)) == Spare(s) - {g}
  {
    var s' := Dropped(s, g);
    hide EntClen, EntGrain, DecompBlock;
    forall b | 0 <= b < |s.index|
      ensures EntryOk(c, s', b)
    {
      assert EntryOk(c, s, b);
    }
    forall h | h in s'.owner
      ensures OwnsOk(s', h)
    {
      assert OwnsOk(s, h);
    }
  }

  /** Writing into one slot leaves the bytes of every other slot alone. */
  lemma UploadElsewhere(s: Store, g: nat, bytes: seq<byte>, h: nat, n: nat)
    requires SlotsOk(s.slots, |s.mem|) && g in s.slots && |bytes| <= s.slots[g] && h in s.slots && h != g
             && n <= s.slots[h]
    ensures ALLOC_GRAIN * h + n <= |s.mem| && ALLOC_GRAIN * g + |bytes| <= |s.mem|
    ensures Stored(Uploaded(s, g, bytes).mem, h, n) == Stored(s.mem, h, n)
  {
    assert Apart(ALLOC_GRAIN * g, s.slots[g], ALLOC_GRAIN * h, s.slots[h]);
  }

  lemma UploadKeeps(c: Codec, s: Store, g: nat, bytes: seq<byte>)
    requires StoreOk(c, s) && g in Spare(s) && |bytes| <= s.slots[g]
    ensures ALLOC_GRAIN * g + s.slots[g] <= |s.mem|
    ensures StoreOk(c, Uploaded(s, g, bytes)) && Stored(Uploaded(s, g, bytes).mem, g, |bytes|) == bytes
  {
    var s' := Uploaded(s, g, bytes);
    assert Stored(s'.mem, g, |bytes|) == bytes;
    hide EntClen, EntGrain, DecompBlock;
    forall b | 0 <= b < |s.index|
      ensures EntryOk(c, s', b)
    {
      EntryUploaded(c, s, g, bytes, b);
    }
    forall h | h in s'.owner
      ensures OwnsOk(s', h)
    {
      assert OwnsOk(s, h);
    }
  }

  lemma UploadPlaces(c: Codec, s: Store, g: nat, page: Page)
    requires StoreOk(c, s) && g in Spare(s) && g < GRAIN_LIMIT && |CompBlock(c, page)| <= s.slots[g]
    ensures ALLOC_GRAIN * g + |CompBlock(c, page)| <= |s.mem|
    ensures var s' := Uploaded(s, g, CompBlock(c, page));
            Placed(c, s', page, g) && Spare(s') == Spare(s)
  {
    UploadKeeps(c, s, g, CompBlock(c, page));
    hide CompBlock, StoreOk;
  }

  lemma EntryUploaded(c: Codec, s: Store, g: nat, bytes: seq<byte>, b: nat)
    requires StoreOk(c, s) && g in Spare(s) && |bytes| <= s.slots[g] && b < |s.index|
    requires ALLOC_GRAIN * g + |bytes| <= |s.mem|
    ensures EntryOk(c, Uploaded(s, g, bytes), b)
  {
    assert EntryOk(c, s, b);
    hide EntClen, EntGrain, DecompBlock;
    if EntClen(s.index[b]) != 0 {
      UploadElsewhere(s, g, bytes, EntGrain(s.index[b]), EntClen(s.index[b]));
    }
  }

  /** The bytes at slot g are the stored form of a page, and no entry uses them yet. */
  ghost predicate Publishable(c: Codec, s: Store, g: nat, clen: nat, page: Page) {
    && clen <= CBLK_SIZE && g < GRAIN_LIMIT
    && (clen == 0 ==> page == ZeroPage())
    && (clen != 0 ==>
          && g in Spare(s) && clen <= s.slots[g] && ALLOC_GRAIN * g + s.slots[g] <= |s.mem|
          && DecompBlock(c, Stored(s.mem, g, clen)) == Some(page))
  }

  lemma PublishEntry(c: Codec, s: Store, b: nat, g: nat, clen: nat, page: Page, a: nat)
    requires b < |s.index| == |s.pages| && a < |s.index| && Publishable(c, s, g, clen, page)
    requires EntryOk(c, s, a) && EntryOk(c, s, b)
    ensures EntryOk(c, Published(s, b, g, clen, page), a)
  {
    EntryRoundTrip(g, clen, EntGen(s.index[b]) + 1);
    hide EntClen, EntGrain, EntMake, EntGen, DecompBlock;
  }

  lemma PublishOwner(c: Codec, s: Store, b: nat, g: nat, clen: nat, page: Page, h: nat)
    requires b < |s.index| == |s.pages| && Publishable(c, s, g, clen, page)
    requires h in s.owner ==> OwnsOk(s, h)
    requires EntryOk(c, s, b) && h in Published(s, b, g, clen, page).owner
    ensures OwnsOk(Published(s, b, g, clen, page), h)
  {
    EntryRoundTrip(g, clen, EntGen(s.index[b]) + 1);
    hide EntClen, EntGrain, EntMake, EntGen, DecompBlock;
  }

  lemma PublishOk(c: Codec, s: Store, b: nat, g: nat, clen: nat, page: Page)
    requires StoreOk(c, s) && b < |s.index| && Publishable(c, s, g, clen, page)
    ensures StoreOk(c, Published(s, b, g, clen, page))
  {
    var s' := Published(s, b, g, clen, page);
    hide EntClen, EntGrain, EntMake, EntGen, DecompBlock, SlotsOk, EntryOk, OwnsOk, Publishable;
    assert EntryOk(c, s, b);
    forall a | 0 <= a < |s.index|
      ensures EntryOk(c, s', a)
    {
      PublishEntry(c, s, b, g, clen, page, a);
    }
    forall h | h in s'.owner
      ensures OwnsOk(s', h)
    {
      PublishOwner(c, s, b, g, clen, page, h);
    }
  }

  /** Publishing a placed page: the block reads as that page, the reservation is spent, and exactly
      the displaced slot comes free. */
  lemma PublishKeeps(c: Codec, s: Store, b: nat, g: nat, page: Page)
    requires RoundTrips(c) && StoreOk(c, s) && b < |s.index| && Placed(c, s, page, g)
    ensures StoreOk(c, Published(s, b, g, |CompBlock(c, page)|, page))
    ensures Spare(Published(s, b, g, |CompBlock(c, page)|, page)) ==
            Spare(s) - {g} + if EntClen(s.index[b]) != 0 then {EntGrain(s.index[b])} else {}
  {
    CodecRoundTrip(c, page);
    EntryFact(c, s, b);
    hide EntClen, EntGrain, EntMake, EntGen, DecompBlock, RoundTrips, CompBlock, StoreOk;
    PublishOk(c, s, b, g, |CompBlock(c, page)|, page);
  }

  /** A new entry published and the slot it displaced given back. */
  function Replaced(s: Store, b: nat, g: nat, clen: nat, page: Page): Store
    requires b < |s.index| == |s.pages|
  {
    var p := Published(s, b, g, clen, page);
    if EntClen(s.index[b]) != 0 then Dropped(p, EntGrain(s.index[b])) else p
  }

  lemma ReplaceKeeps(c: Codec, s: Store, b: nat, g: nat, page: Page)
    requires RoundTrips(c) && StoreOk(c, s) && b < |s.index| && Placed(c, s, page, g)
    ensures |s.pages| == |s.index|
    ensures var p := Published(s, b, g, |CompBlock(c, page)|, page);
            StoreOk(c, p) && (EntClen(s.index[b]) != 0 ==> EntGrain(s.index[b]) in Spare(p))
    ensures var s' := Replaced(s, b, g, |CompBlock(c, page)|, page);
            && StoreOk(c, s') && Spare(s') == Spare(s) - {g} && s'.pages == s.pages[b := page] && s'.mem == s.mem
            && forall h :: h in Spare(s') ==> h in s.slots && s'.slots[h] == s.slots[h]
  {
    PublishKeeps(c, s, b, g, page);
    EntryFact(c, s, b);
    hide StoreOk, RoundTrips, EntClen, EntGrain, EntMake, EntGen, CompBlock, DecompBlock;
    if EntClen(s.index[b]) != 0 {
      DropKeeps(c, Published(s, b, g, |CompBlock(c, page)|, page), EntGrain(s.index[b]));
    }
  }

  lemma ClearKeeps(c: Codec, s: Store, b: nat)
    requires StoreOk(c, s) && b < |s.index| && EntClen(s.index[b]) != 0
    ensures StoreOk(c, Published(s, b, 0, 0, ZeroPage()))
    ensures EntGrain(s.index[b]) in Spare(Published(s, b, 0, 0, ZeroPage()))
    ensures var s' := Replaced(s, b, 0, 0, ZeroPage());
            StoreOk(c, s') && Spare(s') == Spare(s) && s'.pages == s.pages[b := ZeroPage()]
  {
    EntryFact(c, s, b);
    hide EntClen, EntGrain, EntMake, EntGen, DecompBlock, StoreOk;
    PublishOk(c, s, b, 0, 0, ZeroPage());
    DropKeeps(c, Published(s, b, 0, 0, ZeroPage()), EntGrain(s.index[b]));
  }

  lemma TrimFacts(c: Codec, s: Store, b: nat)
    requires StoreOk(c, s) && b < |s.index|
    ensures |s.pages| == |s.index|
    ensures EntClen(s.index[b]) == 0 ==> s.pages == s.pages[b := ZeroPage()]
    ensures EntClen(s.index[b]) != 0 ==>
              && StoreOk(c, Published(s, b, 0, 0, ZeroPage()))
              && EntGrain(s.index[b]) in Spare(Published(s, b, 0, 0, ZeroPage()))
              && var s' := Replaced(s, b, 0, 0, ZeroPage());
                 Spare(s') == Spare(s) && s'.pages == s.pages[b := ZeroPage()]
  {
    EntryFact(c, s, b);
    hide StoreOk, EntClen, EntGrain, EntMake, EntGen, DecompBlock, Published;
    if EntClen(s.index[b]) != 0 { ClearKeeps(c, s, b); }
  }

  /** No slot is lost: with no reservation open, the outstanding slots are exactly the indexed ones. */
  lemma NoSpareNoLeak(c: Codec, s: Store, g: nat)
    requires StoreOk(c, s) && Spare(s) == {}
    ensures g in s.slots <==> exists b :: 0 <= b < |s.index| && EntClen(s.index[b]) != 0 && EntGrain(s.index[b]) == g
  {
    hide EntClen, EntGrain, DecompBlock, SlotsOk;
    if g in s.slots {
      assert g in Spare(s) <==> g !in s.owner;
      assert OwnsOk(s, g);
    }
    forall b | 0 <= b < |s.index| && EntClen(s.index[b]) != 0 && EntGrain(s.index[b]) == g
      ensures g in s.slots
    {
      assert EntryOk(c, s, b);
    }
  }

  /** Blocks that hold data. */
  ghost function LiveBlocks(s: Store): set<nat> { set b | 0 <= b < |s.index| && EntClen(s.index[b]) != 0 }

  lemma OwnersAreLive(c: Codec, s: Store)
    requires StoreOk(c, s)
    ensures Injective(s.owner) && s.owner.Values == LiveBlocks(s) && s.owner.Keys <= s.slots.Keys
  {
    hide EntClen, EntGrain, DecompBlock, SlotsOk;
    forall g | g in s.owner
      ensures g in s.slots && s.owner[g] in LiveBlocks(s) && EntGrain(s.index[s.owner[g]]) == g
    {
      assert OwnsOk(s, g);
    }
    forall b | b in LiveBlocks(s)
      ensures b in s.owner.Values
    {
      assert EntryOk(c, s, b);
      assert s.owner[EntGrain(s.index[b])] == b;
    }
    hide StoreOk;
  }

  /** Every outstanding slot is a live block's or spare: nothing else takes up the heap. */
  lemma SlotCount(c: Codec, s: Store)
    requires StoreOk(c, s)
    ensures |s.slots| == |LiveBlocks(s)| + |Spare(s)|
  {
    hide StoreOk, LiveBlocks, Injective;
    OwnersAreLive(c, s);
    PairedOff(s.owner);
    assert s.slots.Keys == s.owner.Keys + Spare(s);
    assert |s.slots.Keys| == |s.owner.Keys| + |Spare(s)|;
  }
}
