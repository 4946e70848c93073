/** Requests served one at a time: bounds check, windows, and one reply with the request's handle. */
module Requests {
  import opened Blocks
  import opened StoreModel
  import HeapModel
  import opened BlockOps
  import opened BlockStore
  import opened Worker
  import opened Disk
  import opened Ranges
  import opened Windows
  import opened Headroom

  datatype Command = ReadCmd | WriteCmd | DiscCmd | FlushCmd | TrimCmd | OtherCmd

  datatype Request = Request(cmd: Command, handle: nat, off: nat, len: nat)

  /** A reply header, and for a read the bytes sent after it. */
  datatype Reply = Reply(handle: nat, error: Errno, data: seq<byte>)

  /** Wire fields are 64 and 32 bits wide. */
  predicate Wire(r: Request) { r.off < U64 && r.len < 0x1_0000_0000 }

  /** The request lies inside the device. */
  predicate Bounded(r: Request, size: nat) { r.off + r.len <= size }

  /** The device's size is a 64-bit number. */
  predicate Fits(nblocks: nat) { CBLK_SIZE * nblocks < U64 }

  /** A write cut short by the first window that failed. */
  lemma WroteShort(a: Ledger, b: Ledger, off: nat, s1: seq<byte>, s2: seq<byte>, err: Errno)
    requires Wrote(a, b, off, s1, err) && err != Fine && ((off + |s1|) % CBLK_SIZE == 0 || s1 == [] || s2 == [])
    ensures Wrote(a, b, off, s1 + s2, err)
  {
    WrittenShort(a.pages, b.pages, off, s1, s2, false);
    assert Touched(off, |s1|) <= Touched(off, |s1 + s2|);
    hide Written, Touched, AskCount;
  }

  /** One window of a write request, after the windows in `done`. Nothing more is stored once a window
      has failed. */
  method WriteWindow(w: BlockWorker, voff: nat, part: seq<byte>, ghost off: nat, ghost done: seq<byte>, ghost a: Ledger,
      err0: Errno)
      returns (err: Errno)
    requires w.store.Valid() && w.ops.Length > 0 && voff == off + |done|
             && voff + |part| <= CBLK_SIZE * w.store.index.Length
    requires (done == [] && w.store.Books() == a) || voff % CBLK_SIZE == 0
    requires Wrote(a, w.store.Books(), off, done, err0)
    modifies w.ops, w.store.Repr()
    ensures w.store.Valid() && Wrote(a, w.store.Books(), off, done + part, err)
    ensures if err0 == Fine then Wrote(old(w.store.Books()), w.store.Books(), voff, part, err)
            else err == err0 && w.store.Books() == old(w.store.Books())
  {
    hide StoreOk, RoundTrips, Accounted, HeapModel.Good, Wrote, Spare;
    err := err0;
    if err0 == Fine {
      ghost var b := w.store.Books();
      var e := StoreRange(w, voff, part);
      WroteJoin(a, b, w.store.Books(), off, done, part, Fine, e);
      err := Worse(Fine, e);
    } else {
      WroteShort(a, w.store.Books(), off, done, part, err0);
    }
  }

  /** A write that failed stopped there: the windows before the one that failed - 256 KiB at most - are stored
      whole, and nothing after it was touched. */
  ghost predicate Stopped(a: Ledger, b: Ledger, off: nat, payload: seq<byte>, k: nat, error: Errno) {
    exists m: Ledger, j: nat, n: nat :: StoppedAt(a, m, b, off, payload, k, error, j, n)
  }

  ghost predicate StoppedAt(a: Ledger, m: Ledger, b: Ledger, off: nat, payload: seq<byte>, k: nat, error: Errno, j: nat,
      n: nat) {
    && j <= n <= k <= |payload| && n - j <= 0x4_0000
    && Wrote(a, m, off, payload[..j], Fine) && Wrote(m, b, off + j, payload[j..n], error)
  }

  lemma JustStopped(a: Ledger, m: Ledger, b: Ledger, off: nat, payload: seq<byte>, k: nat, error: Errno, j: nat, n: nat)
    requires StoppedAt(a, m, b, off, payload, k, error, j, n)
    ensures Stopped(a, b, off, payload, k, error)
  {
  }

  lemma StaysStopped(a: Ledger, b: Ledger, off: nat, payload: seq<byte>, k: nat, k': nat, error: Errno)
    requires Stopped(a, b, off, payload, k, error) && k <= k' <= |payload|
    ensures Stopped(a, b, off, payload, k', error)
  {
    hide Wrote;
    var m: Ledger, j: nat, n: nat :| StoppedAt(a, m, b, off, payload, k, error, j, n);
    assert StoppedAt(a, m, b, off, payload, k', error, j, n);
  }

  /** What is known k bytes into a write request. */
  ghost predicate Halfway(a: Ledger, b: Ledger, r: Request, bounded: bool, payload: seq<byte>, k: nat, error: Errno) {
    && k <= |payload| && k <= r.len && (k == 0 ==> b == a)
    && if bounded then
         && Wrote(a, b, r.off, payload[..k], error) && (k == 0 || k == r.len || (r.off + k) % CBLK_SIZE == 0)
         && (error != Fine ==> Stopped(a, b, r.off, payload, k, error))
       else b == a && error == EINVAL
  }

  /** One turn of the loop: a window is received, and stored unless the request already failed. */
  method NextWindow(w: BlockWorker, r: Request, bad: bool, payload: seq<byte>, k: nat, err0: Errno, ghost a: Ledger)
      returns (alive: bool, k': nat, err: Errno)
    requires w.store.Valid() && w.ops.Length > 0 && Wire(r) && Fits(w.store.index.Length) && k < r.len
    requires bad <==> !Bounded(r, CBLK_SIZE * w.store.index.Length)
    requires Halfway(a, w.store.Books(), r, !bad, payload, k, err0)
    modifies w.ops, w.store.Repr()
    ensures w.store.Valid() && Halfway(a, w.store.Books(), r, !bad, payload, k', err)
    ensures if alive then k < k' <= |payload| else k' == k && |payload| < r.len
  {
    hide StoreOk, RoundTrips, Accounted, HeapModel.Good, Wrote, Spare, WindowLen, Stopped;
    var voff := (r.off + k) % U64;
    var chunk := WindowLen(voff, r.len - k);
    alive, k', err := true, k, err0;
    if k + chunk > |payload| {
      alive := false;
      return;
    }
    k' := k + chunk;
    if !bad {
      assert payload[..k] + payload[k..k'] == payload[..k'];
      ghost var m := w.store.Books();
      err := WriteWindow(w, voff, payload[k..k'], r.off, payload[..k], a, err0);
      if err0 != Fine {
        StaysStopped(a, m, r.off, payload, k, k', err0);
      } else if err != Fine {
        JustStopped(a, m, w.store.Books(), r.off, payload, k', err, k, k');
      }
    }
  }

  /** A write request. `payload` is what the client sends before hanging up, if it ever does. The
      whole payload is taken off the wire even when the request is refused. */
  method HandleWrite(w: BlockWorker, r: Request, payload: seq<byte>) returns (alive: bool, k: nat, error: Errno)
    requires w.store.Valid() && w.ops.Length > 0 && Wire(r) && Fits(w.store.index.Length)
    modifies w.ops, w.store.Repr()
    ensures w.store.Valid() && (alive <==> r.len <= |payload|) && (alive ==> k == r.len)
    ensures Halfway(old(w.store.Books()), w.store.Books(), r, Bounded(r, CBLK_SIZE * w.store.index.Length), payload, k,
            error)
    ensures error == EIO <==> DeviceFailed(w.store.device, old(w.store.copies), w.store.copies)
    ensures error == ENOSPC <==> error != EIO && RanOut(w.store.start, old(w.store.calls), w.store.calls)
    ensures old(w.store.RoomFor(Touched(r.off, r.len))) ==> error != ENOSPC
  {
    hide StoreOk, RoundTrips, Accounted, HeapModel.Good, Halfway, Spare, Drew, RanOut, DeviceFailed, Touched;
    ghost var a := w.store.Books();
    alive, k, error := TakeWindows(w, r, payload);
    HalfwayFacts(a, w.store.Books(), r, Bounded(r, CBLK_SIZE * w.store.index.Length), payload, k, error);
    w.store.WhyFailed(Touched(r.off, r.len));
  }

  lemma HalfwayFacts(a: Ledger, b: Ledger, r: Request, bounded: bool, payload: seq<byte>, k: nat, error: Errno)
    requires Halfway(a, b, r, bounded, payload, k, error)
    ensures Drew(a.calls, b.calls, Touched(r.off, r.len))
    ensures error == EIO <==> b.faults > a.faults
    ensures error == ENOSPC <==> b.faults <= a.faults && b.refused > a.refused
  {
    hide Written, AskCount, Stopped;
    assert Touched(r.off, k) <= Touched(r.off, r.len);
  }

  /** The windows of a write request, one after the other. */
  method TakeWindows(w: BlockWorker, r: Request, payload: seq<byte>) returns (alive: bool, k: nat, error: Errno)
    requires w.store.Valid() && w.ops.Length > 0 && Wire(r) && Fits(w.store.index.Length)
    modifies w.ops, w.store.Repr()
    ensures w.store.Valid() && (alive <==> r.len <= |payload|) && (alive ==> k == r.len)
    ensures Halfway(old(w.store.Books()), w.store.Books(), r, Bounded(r, CBLK_SIZE * w.store.index.Length), payload, k,
            error)
  {
    hide StoreOk, RoundTrips, Accounted, HeapModel.Good, Wrote, Spare;
    ghost var a := w.store.Books();
    assert payload[..0] == [];
    WroteNothing(a, r.off);
    var bad := OutOfBounds(CBLK_SIZE * w.store.index.Length, r.off, r.len);
    alive, k, error := true, 0, if bad then EINVAL else Fine;
    assert Halfway(a, w.store.Books(), r, !bad, payload, k, error);
    hide Halfway;
    while k < r.len
      invariant w.store.Valid() && alive && k <= r.len && k <= |payload|
      invariant Halfway(a, w.store.Books(), r, !bad, payload, k, error)
      decreases r.len - k
    {
      alive, k, error := NextWindow(w, r, bad, payload, k, error, a);
      HalfwayBounds(a, w.store.Books(), r, !bad, payload, k, error);
      if !alive {
        return;
      }
    }
  }

  lemma HalfwayBounds(a: Ledger, b: Ledger, r: Request, bounded: bool, payload: seq<byte>, k: nat, error: Errno)
    requires Halfway(a, b, r, bounded, payload, k, error)
    ensures k <= |payload| && k <= r.len
  {
  }

  /** The bytes of a read that went out before a copy failed are the right ones. */
  ghost predicate Sent(a: Ledger, b: Ledger, r: Request, keep: bool, data: seq<byte>) {
    && Fetched(a, b, r.off, r.len, if keep then Fine else EIO, data)
    && |data| <= r.len && data == Range(a.pages, r.off, |data|)
  }

  lemma SentAll(a: Ledger, b: Ledger, r: Request, data: seq<byte>)
    requires Fetched(a, b, r.off, r.len, Fine, data)
    ensures Sent(a, b, r, true, data)
  {
  }

  lemma SentSome(a: Ledger, b: Ledger, d: Ledger, r: Request, k: nat, n: nat, data: seq<byte>, err: Errno,
      none: seq<byte>)
    requires Fetched(a, b, r.off, k, Fine, data) && Fetched(b, d, r.off + k, n, err, none) && err != Fine
    requires k <= r.len && r.off + r.len <= CBLK_SIZE * |a.pages|
    ensures Sent(a, d, r, false, data)
  {
  }

  /** The data of a read request, after its reply header went out with no error. */
  method HandleRead(w: BlockWorker, r: Request) returns (keep: bool, data: seq<byte>)
    requires w.store.Valid() && w.ops.Length > 0 && Wire(r) && Fits(w.store.index.Length)
    requires Bounded(r, CBLK_SIZE * w.store.index.Length)
    modifies w.ops, w.store.Repr()
    ensures w.store.Valid() && Sent(old(w.store.Books()), w.store.Books(), r, keep, data)
  {
    hide StoreOk, RoundTrips, Accounted, HeapModel.Good, Fetched, Sent, Spare, WindowLen;
    ShapeOk(w.store.codec, w.store.View());
    ghost var a := w.store.Books();
    FetchedNothing(a, r.off);
    keep, data := true, [];
    var k := 0;
    while k < r.len
      invariant w.store.Valid() && keep && k <= r.len && Fetched(a, w.store.Books(), r.off, k, Fine, data)
      decreases r.len - k
    {
      var chunk := WindowLen(r.off + k, r.len - k);
      ghost var b := w.store.Books();
      var err, part := LoadRange(w, r.off + k, chunk);
      if err != Fine {
        SentSome(a, b, w.store.Books(), r, k, chunk, data, err, part);
        keep := false;
        return;
      }
      FetchedJoin(a, b, w.store.Books(), r.off, k, chunk, data, part, err);
      data := data + part;
      k := k + chunk;
    }
    SentAll(a, w.store.Books(), r, data);
  }

  /** What serving one request amounts to. */
  ghost predicate Served(a: Ledger, b: Ledger, r: Request, payload: seq<byte>, keep: bool, reply: Option<Reply>) {
    var bounded := Bounded(r, CBLK_SIZE * |a.pages|);
    match r.cmd
    case WriteCmd =>
      if r.len > |payload| then !keep && reply.None? && exists k: nat, e :: Halfway(a, b, r, bounded, payload, k, e)
      else
        && reply.Some? && reply.value.handle == r.handle && reply.value.data == []
        && var e := reply.value.error;
           && (keep <==> e != EIO)
           && (if bounded then Wrote(a, b, r.off, payload[..r.len], e) else b == a && e == EINVAL)
           && (bounded && e != Fine ==> Stopped(a, b, r.off, payload, r.len, e))
    case ReadCmd =>
      if bounded then reply.Some? && reply.value == Reply(r.handle, Fine, reply.value.data)
        && Sent(a, b, r, keep, reply.value.data)
      else b == a && keep && reply == Option.Some(Reply(r.handle, EINVAL, []))
    case TrimCmd =>
      && keep && reply == Option.Some(Reply(r.handle, if bounded then Fine else EINVAL, []))
      && b == (if bounded then a.(pages := Trimmed(a.pages, r.off, r.len), calls := b.calls) else a)
      && Drew(a.calls, b.calls, 0)
    case _ => b == a && keep && reply == Option.Some(Reply(r.handle, Fine, []))
  }

  method ServeWrite(w: BlockWorker, r: Request, payload: seq<byte>) returns (keep: bool, reply: Option<Reply>)
    requires w.store.Valid() && w.ops.Length > 0 && Wire(r) && Fits(w.store.index.Length) && r.cmd == WriteCmd
    modifies w.ops, w.store.Repr()
    ensures w.store.Valid() && Served(old(w.store.Books()), w.store.Books(), r, payload, keep, reply)
  {
    hide StoreOk, RoundTrips, Accounted, HeapModel.Good, Wrote, Spare, Served, Halfway;
    ShapeOk(w.store.codec, w.store.View());
    ghost var a := w.store.Books();
    var alive, k, error := HandleWrite(w, r, payload);
    keep, reply := alive && error != EIO, if alive then Option.Some(Reply(r.handle, error, [])) else None;
    WriteServed(a, w.store.Books(), r, payload, alive, k, error);
  }

  lemma WriteServed(a: Ledger, b: Ledger, r: Request, payload: seq<byte>, alive: bool, k: nat, error: Errno)
    requires r.cmd == WriteCmd && (alive <==> r.len <= |payload|) && (alive ==> k == r.len)
    requires Halfway(a, b, r, Bounded(r, CBLK_SIZE * |a.pages|), payload, k, error)
    ensures Served(a, b, r, payload, alive && error != EIO, if alive then Option.Some(Reply(r.handle, error, []))
            else None)
  {
    hide Wrote;
  }

  /** Serve one request: one reply, with the request's own handle. EIO ends the connection; a bad
      request or a full heap does not. EIO means the device failed a copy; ENOSPC that none failed and the
      heap, as it stood when it was asked, had no room for a block - never with room for as many blocks
      as the request touches. */
  method HandleOne(w: BlockWorker, r: Request, payload: seq<byte>) returns (keep: bool, reply: Option<Reply>)
    requires w.store.Valid() && w.ops.Length > 0 && Wire(r) && Fits(w.store.index.Length)
    modifies w.ops, w.store.Repr()
    ensures w.store.Valid() && Served(old(w.store.Books()), w.store.Books(), r, payload, keep, reply)
    ensures keep <==> reply.Some? && !DeviceFailed(w.store.device, old(w.store.copies), w.store.copies)
    ensures reply.Some? && reply.value.error == ENOSPC <==>
            keep && reply.Some? && RanOut(w.store.start, old(w.store.calls), w.store.calls)
    ensures old(w.store.RoomFor(Touched(r.off, r.len))) ==> reply.Some? ==> reply.value.error != ENOSPC
  {
    hide StoreOk, RoundTrips, Accounted, HeapModel.Good, Served, Spare, Drew, RanOut, DeviceFailed, Touched;
    ghost var a := w.store.Books();
    keep, reply := HandleAny(w, r, payload);
    ServedFacts(a, w.store.Books(), r, payload, keep, reply);
    w.store.WhyFailed(Touched(r.off, r.len));
  }

  /** Why a request served on its own failed, in terms of the counts. */
  lemma ServedFacts(a: Ledger, b: Ledger, r: Request, payload: seq<byte>, keep: bool, reply: Option<Reply>)
    requires Served(a, b, r, payload, keep, reply)
    ensures Drew(a.calls, b.calls, Touched(r.off, r.len))
    ensures keep <==> reply.Some? && b.faults <= a.faults
    ensures reply.Some? && reply.value.error == ENOSPC <==> keep && reply.Some? && b.refused > a.refused
  {
    hide Written, Trimmed, Range, AskCount;
    if r.cmd == WriteCmd && r.len > |payload| {
      var k: nat, e :| Halfway(a, b, r, Bounded(r, CBLK_SIZE * |a.pages|), payload, k, e);
      assert Touched(r.off, k) <= Touched(r.off, r.len);
    }
  }

  method HandleAny(w: BlockWorker, r: Request, payload: seq<byte>) returns (keep: bool, reply: Option<Reply>)
    requires w.store.Valid() && w.ops.Length > 0 && Wire(r) && Fits(w.store.index.Length)
    modifies w.ops, w.store.Repr()
    ensures w.store.Valid() && Served(old(w.store.Books()), w.store.Books(), r, payload, keep, reply)
  {
    hide StoreOk, RoundTrips, Accounted, HeapModel.Good, Wrote, Sent, Spare, Trimmed, Halfway, AskCount;
    ShapeOk(w.store.codec, w.store.View());
    if r.cmd == WriteCmd {
      keep, reply := ServeWrite(w, r, payload);
      return;
    }
    var size := CBLK_SIZE * w.store.index.Length;
    var bad := OutOfBounds(size, r.off, r.len);
    keep, reply := true, Option.Some(Reply(r.handle, Fine, []));
    match r.cmd
    case ReadCmd =>
      if bad {
        reply := Option.Some(Reply(r.handle, EINVAL, []));
      } else {
        var data;
        keep, data := HandleRead(w, r);
        reply := Option.Some(Reply(r.handle, Fine, data));
      }
    case TrimCmd =>
      if bad {
        reply := Option.Some(Reply(r.handle, EINVAL, []));
      } else {
        TrimRange(w.store, r.off, r.len);
      }
    case _ =>
  }
}
