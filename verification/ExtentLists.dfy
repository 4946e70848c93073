/** The intrusive doubly linked extent lists. Well-formedness is stated node by node, with a ghost
    rank that falls along `next`; `WalkSpellsList` shows that this pins down the whole list. */
module ExtentLists {

  const EXT_NONE: nat := 0xFFFF_FFFF
  const NCLASS: nat := 64
  /** List numbers: 0..63 are the per-class partial lists, then the free list. */
  const FREE: nat := NCLASS
  const NOWHERE: nat := NCLASS + 1

  datatype Extent = Extent(next: nat, prev: nat, nfree: nat, nslots: nat, cls: nat, used: bool, hint: nat)

  /** Everything but the links agrees. */
  predicate SameBody(a: Extent, b: Extent) {
    a.nfree == b.nfree && a.nslots == b.nslots && a.cls == b.cls && a.used == b.used && a.hint == b.hint
  }

  /** Ghost bookkeeping: which list each extent is on, and a rank that decreases along `next`. */
  datatype Chain = Chain(home: seq<nat>, rank: seq<nat>, clock: nat)

  ghost predicate NodeOk(ext: seq<Extent>, heads: seq<nat>, c: Chain, e: nat)
    requires e < |ext| == |c.home| == |c.rank| && |heads| == NCLASS + 1
  {
    && c.rank[e] < c.clock
    && c.home[e] <= NOWHERE
    && (c.home[e] != NOWHERE ==> NextOk(ext, c, e, ext[e].next) && PrevOk(ext, heads, c, e, ext[e].prev))
  }

  ghost predicate NextOk(ext: seq<Extent>, c: Chain, e: nat, x: nat)
    requires e < |ext| == |c.home| == |c.rank|
  {
    x == EXT_NONE || (x < |ext| && c.home[x] == c.home[e] && ext[x].prev == e && c.rank[x] < c.rank[e])
  }

  ghost predicate PrevOk(ext: seq<Extent>, heads: seq<nat>, c: Chain, e: nat, p: nat)
    requires e < |ext| == |c.home| && |heads| == NCLASS + 1 && c.home[e] <= NCLASS
  {
    (p == EXT_NONE && heads[c.home[e]] == e) || (p < |ext| && c.home[p] == c.home[e] && ext[p].next == e)
  }

  ghost predicate HeadOk(ext: seq<Extent>, heads: seq<nat>, c: Chain, l: nat)
    requires |ext| == |c.home| && |heads| == NCLASS + 1 && l <= NCLASS
  {
    heads[l] == EXT_NONE || (heads[l] < |ext| && c.home[heads[l]] == l && ext[heads[l]].prev == EXT_NONE)
  }

  ghost predicate Linked(ext: seq<Extent>, heads: seq<nat>, c: Chain) {
    && |ext| == |c.home| == |c.rank| < EXT_NONE
    && |heads| == NCLASS + 1
    && (forall e :: 0 <= e < |ext| ==> NodeOk(ext, heads, c, e))
    && (forall l :: 0 <= l <= NCLASS ==> HeadOk(ext, heads, c, l))
  }

  /** Links are all that list structure depends on. */
  lemma LinkedFrame(ext: seq<Extent>, heads: seq<nat>, c: Chain, e: nat, x: Extent)
    requires Linked(ext, heads, c) && e < |ext| && x.next == ext[e].next && x.prev == ext[e].prev
    ensures Linked(ext[e := x], heads, c)
  {
    var ext' := ext[e := x];
    forall i | 0 <= i < |ext|
      ensures NodeOk(ext', heads, c, i)
    {
      assert NodeOk(ext, heads, c, i);
    }
    forall l | 0 <= l <= NCLASS
      ensures HeadOk(ext', heads, c, l)
    {
      assert HeadOk(ext, heads, c, l);
    }
  }

  /** An extent on no list may have any links at all. */
  lemma UnlistedFrame(ext: seq<Extent>, heads: seq<nat>, c: Chain, e: nat, x: Extent)
    requires Linked(ext, heads, c) && e < |ext| && c.home[e] == NOWHERE
    ensures Linked(ext[e := x], heads, c)
  {
    var ext' := ext[e := x];
    forall i | 0 <= i < |ext|
      ensures NodeOk(ext', heads, c, i)
    {
      assert NodeOk(ext, heads, c, i);
    }
    forall l | 0 <= l <= NCLASS
      ensures HeadOk(ext', heads, c, l)
    {
      assert HeadOk(ext, heads, c, l);
    }
  }

  /** The stores of `lst_push`, in order; any head outside the table is the sentinel. */
  function PushNode(ext: seq<Extent>, head: nat, e: nat): (r: seq<Extent>)
    requires e < |ext|
    ensures |r| == |ext| && forall i :: 0 <= i < |ext| ==> SameBody(r[i], ext[i])
  {
    var ext1 := ext[e := ext[e].(prev := EXT_NONE, next := head)];
    if head < |ext| then ext1[head := ext1[head].(prev := e)] else ext1
  }

  function PushChain(c: Chain, l: nat, e: nat): Chain
    requires e < |c.home| == |c.rank|
  {
    Chain(c.home[e := l], c.rank[e := c.clock], c.clock + 1)
  }

  lemma PushLinked(ext: seq<Extent>, heads: seq<nat>, c: Chain, l: nat, e: nat)
    requires Linked(ext, heads, c) && l <= NCLASS && e < |ext| && c.home[e] == NOWHERE
    ensures heads[l] != EXT_NONE ==> heads[l] < |ext|
    ensures Linked(PushNode(ext, heads[l], e), heads[l := e], PushChain(c, l, e))
  {
    assert HeadOk(ext, heads, c, l);
    assert heads[l] < |ext| ==> NodeOk(ext, heads, c, heads[l]);
    var ext', heads', c' := PushNode(ext, heads[l], e), heads[l := e], PushChain(c, l, e);
    forall i | 0 <= i < |ext|
      ensures NodeOk(ext', heads', c', i)
    {
      assert NodeOk(ext, heads, c, i);
    }
    forall m | 0 <= m <= NCLASS
      ensures HeadOk(ext', heads', c', m)
    {
      assert HeadOk(ext, heads, c, m);
    }
  }

  /** The stores of `lst_remove`, in order. */
  function RemoveNode(ext: seq<Extent>, e: nat): (r: seq<Extent>)
    requires e < |ext|
    ensures |r| == |ext|
    ensures forall i :: 0 <= i < |ext| ==>
              && r[i].next == (if i == e then EXT_NONE else if i == ext[e].prev then ext[e].next else ext[i].next)
              && r[i].prev == (if i == e then EXT_NONE else if i == ext[e].next then ext[e].prev else ext[i].prev)
              && SameBody(r[i], ext[i])
  {
    var p, x := ext[e].prev, ext[e].next;
    var ext1 := if p < |ext| then ext[p := ext[p].(next := x)] else ext;
    var ext2 := if x < |ext| then ext1[x := ext1[x].(prev := p)] else ext1;
    ext2[e := ext2[e].(next := EXT_NONE, prev := EXT_NONE)]
  }

  function RemoveHead(ext: seq<Extent>, head: nat, e: nat): nat
    requires e < |ext|
  {
    if ext[e].prev != EXT_NONE then head else ext[e].next
  }

  function RemoveChain(c: Chain, e: nat): Chain
    requires e < |c.home|
  {
    c.(home := c.home[e := NOWHERE])
  }

  lemma RemoveLinked(ext: seq<Extent>, heads: seq<nat>, c: Chain, l: nat, e: nat)
    requires Linked(ext, heads, c) && l <= NCLASS && e < |ext| && c.home[e] == l
    ensures ext[e].prev != EXT_NONE ==> ext[e].prev < |ext|
    ensures ext[e].next != EXT_NONE ==> ext[e].next < |ext|
    ensures Linked(RemoveNode(ext, e), heads[l := RemoveHead(ext, heads[l], e)], RemoveChain(c, e))
  {
    assert NodeOk(ext, heads, c, e) && HeadOk(ext, heads, c, l);
    var ext', heads', c' := RemoveNode(ext, e), heads[l := RemoveHead(ext, heads[l], e)], RemoveChain(c, e);
    forall i | 0 <= i < |ext|
      ensures NodeOk(ext', heads', c', i)
    {
      RemoveNodeOk(ext, heads, c, l, e, i);
    }
    forall m | 0 <= m <= NCLASS
      ensures HeadOk(ext', heads', c', m)
    {
      assert HeadOk(ext, heads, c, m);
    }
  }

  lemma RemoveNodeOk(ext: seq<Extent>, heads: seq<nat>, c: Chain, l: nat, e: nat, i: nat)
    requires Linked(ext, heads, c) && l <= NCLASS && e < |ext| && c.home[e] == l && i < |ext|
    ensures NodeOk(RemoveNode(ext, e), heads[l := RemoveHead(ext, heads[l], e)], RemoveChain(c, e), i)
  {
    assert NodeOk(ext, heads, c, i);
    if i != e && c.home[i] != NOWHERE {
      RemoveNextOk(ext, heads, c, e, i);
      RemovePrevOk(ext, heads, c, l, e, i);
    }
  }

  lemma RemoveNextOk(ext: seq<Extent>, heads: seq<nat>, c: Chain, e: nat, i: nat)
    requires Linked(ext, heads, c) && e < |ext| && c.home[e] <= NCLASS && i < |ext| && i != e && c.home[i] <= NCLASS
    ensures NextOk(RemoveNode(ext, e), RemoveChain(c, e), i, RemoveNode(ext, e)[i].next)
  {
    assert NodeOk(ext, heads, c, i) && NodeOk(ext, heads, c, e);
    if i == ext[e].prev {
      if ext[e].next < |ext| { assert NodeOk(ext, heads, c, ext[e].next); }
    }
  }

  lemma RemovePrevOk(ext: seq<Extent>, heads: seq<nat>, c: Chain, l: nat, e: nat, i: nat)
    requires Linked(ext, heads, c) && l <= NCLASS && e < |ext| && c.home[e] == l
    requires i < |ext| && i != e && c.home[i] <= NCLASS
    ensures PrevOk(RemoveNode(ext, e), heads[l := RemoveHead(ext, heads[l], e)], RemoveChain(c, e), i,
            RemoveNode(ext, e)[i].prev)
  {
    assert NodeOk(ext, heads, c, i) && NodeOk(ext, heads, c, e);
    if i == ext[e].next {
      if ext[e].prev < |ext| { assert NodeOk(ext, heads, c, ext[e].prev); }
    }
  }

  // ------------------------------------------------ what a traversal sees

  ghost predicate OnList(ext: seq<Extent>, c: Chain, l: nat, e: nat) {
    e < |ext| && |c.home| == |ext| && c.home[e] == l
  }

  /** The extents met by following `next` from `e`: the rank makes this terminate. */
  ghost function Walk(ext: seq<Extent>, heads: seq<nat>, c: Chain, e: nat): (list: seq<nat>)
    requires Linked(ext, heads, c)
    requires e != EXT_NONE ==> e < |ext| && c.home[e] <= NCLASS
    ensures forall i :: 0 <= i < |list| ==> list[i] < |ext|
    ensures e != EXT_NONE ==>
              forall i :: 0 <= i < |list| ==> OnList(ext, c, c.home[e], list[i]) && c.rank[list[i]] <= c.rank[e]
    ensures forall i, j :: 0 <= i < j < |list| ==> c.rank[list[i]] > c.rank[list[j]]
    ensures e == EXT_NONE ==> list == []
    decreases if e == EXT_NONE then 0 else c.rank[e] + 1
  {
    if e == EXT_NONE then []
    else
      assert NodeOk(ext, heads, c, e);
      [e] + Walk(ext, heads, c, ext[e].next)
  }

  /** Nothing on a list is missed: every member is met from the head. Climb `prev` to the head. */
  lemma {:induction false} WalkReaches(ext: seq<Extent>, heads: seq<nat>, c: Chain, l: nat, e: nat, from: nat)
    requires Linked(ext, heads, c) && l <= NCLASS && OnList(ext, c, l, e) && OnList(ext, c, l, from)
    requires e in Walk(ext, heads, c, from)
    ensures heads[l] < |ext| && c.home[heads[l]] == l && e in Walk(ext, heads, c, heads[l])
    decreases c.clock - c.rank[from]
  {
    assert NodeOk(ext, heads, c, from) && HeadOk(ext, heads, c, l);
    if ext[from].prev != EXT_NONE {
      var p := ext[from].prev;
      assert NodeOk(ext, heads, c, p);
      assert e in Walk(ext, heads, c, p);
      WalkReaches(ext, heads, c, l, e, p);
    }
  }

  /** Following `next` from a head visits exactly the extents on that list, each once. */
  lemma WalkSpellsList(ext: seq<Extent>, heads: seq<nat>, c: Chain, l: nat)
    requires Linked(ext, heads, c) && l <= NCLASS
    ensures heads[l] != EXT_NONE ==> heads[l] < |ext| && c.home[heads[l]] <= NCLASS
    ensures forall e :: e in Walk(ext, heads, c, heads[l]) <==> OnList(ext, c, l, e)
    ensures var list := Walk(ext, heads, c, heads[l]);
            forall i, j :: 0 <= i < j < |list| ==> list[i] != list[j]
  {
    assert HeadOk(ext, heads, c, l);
    forall e | OnList(ext, c, l, e)
      ensures e in Walk(ext, heads, c, heads[l])
    {
      assert e in Walk(ext, heads, c, e);
      WalkReaches(ext, heads, c, l, e, e);
    }
  }

  /** A list is empty exactly when its head is the sentinel. */
  lemma EmptyList(ext: seq<Extent>, heads: seq<nat>, c: Chain, l: nat)
    requires Linked(ext, heads, c) && l <= NCLASS
    ensures heads[l] == EXT_NONE <==> forall e :: 0 <= e < |ext| ==> c.home[e] != l
  {
    WalkSpellsList(ext, heads, c, l);
    assert HeadOk(ext, heads, c, l);
    if heads[l] == EXT_NONE {
      forall e | 0 <= e < |ext|
        ensures c.home[e] != l
      {
        assert OnList(ext, c, l, e) <==> e in Walk(ext, heads, c, heads[l]);
      }
    }
  }
}
