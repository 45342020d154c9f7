/** TensorSubscriber: attaching to a pool, reading frames, draining fences.

    The metadata slot is a run of the slot's step system, of which the subscriber has seen the part up to position
    `now`. Buffers are named by the attachment that mapped them, so a pointer kept across a detach is recognisable
    as dangling. */
module Subscriber {
  import opened Machine
  import opened Descriptor
  import opened Seqlock
  import opened FenceRing
  import opened Wire
  import opened Sidecar

  datatype Pointer =
    | Null
    | Host(attachment: nat, buffer: nat, offset: nat)
    | Device(attachment: nat, buffer: nat, offset: nat)

  datatype FallbackPolicy = LastKnownGood | ZeroCommand | UserCallback | AbortLoop

  /** `frame` is the record whose fields the view forwards one by one. */
  datatype TensorView = TensorView(
    data: Pointer, devicePtr: Pointer, frame: Words, staleness: U64, syncFd: int, retries: int)

  /** What this build and machine can do; the calls into the kernel and the driver answer arbitrarily. */
  datatype Build = Build(cuda: bool, jetson: bool, nvbufParams: nat)

  /** An attached pool: attachment number `id`. */
  datatype Attachment = Attachment(
    id: nat, fds: seq<Fd>, views: seq<Pointer>, devicePtrs: seq<Pointer>, bufferSize: U64, generation: U32,
    deviceBacked: bool)

  /** What the network does for a handshake: whether the connect succeeds, whether the header comes in time, and how
      many bytes of the blob do. */
  datatype Network = Network(connected: bool, answered: bool, coming: nat) {
    /** The blob of bundle m does not come in full. */
    predicate CutsBlob(m: Message)
    {
      answered && m.PoolMsg? && coming < |m.blob|
    }

    /** Bundle m comes in full, and is of this version. */
    predicate Brings(m: Message)
    {
      answered && m.PoolMsg? && |m.blob| <= coming && m.header.wireVersion == WIRE_VERSION
    }
  }

  /** The opened metadata channel, if any. hasNotify is false on a slot written by a publisher without notify words. */
  datatype Meta = NoMeta | Meta(hist: seq<Slot>, now: nat, hasNotify: bool)

  /** The frame kept for the fallback, with its publish time. */
  datatype LastGood = NoLastGood | LastGood(view: TensorView, publishTs: U64)

  /** What was handed out of the current slot: the newest frame taken fresh, the last one returned, and whether
      seenNotify and seenSeqno are about this slot (or still 0). */
  datatype Track = Track(taken: nat, returned: nat, seenHere: bool)

  /** Every descriptor that ever arrived, and every one closed again. */
  datatype Book = Book(received: multiset<Fd>, closed: multiset<Fd>, lost: multiset<Fd>)

  // ------------------------------------------------------------------ invariants, on values

  /** This build can consume the pool: a device pool needs device support. */
  predicate Consumable(header: PoolHeader, build: Build) { header.backend == ACCELERATOR ==> build.cuda }

  /** A pointer into buffer `buffer` of the given attachment, or none. */
  predicate Into(p: Pointer, attachment: nat, buffer: nat, offset: nat)
  {
    p == Null || p == Host(attachment, buffer, offset) || p == Device(attachment, buffer, offset)
  }

  /** A view that is good to use under the given attachment. */
  predicate Usable(v: TensorView, pool: Attachment)
  {
    && BoHandle(v.frame) < |pool.fds|
    && Into(v.data, pool.id, BoHandle(v.frame), Offset(v.frame))
    && Into(v.devicePtr, pool.id, BoHandle(v.frame), Offset(v.frame))
    && Generation(v.frame) == pool.generation
  }

  /** Buffer i is mapped at its own place, or not at all; the kept frame belongs to this attachment. */
  ghost predicate Attached(pool: Attachment, lastGood: LastGood)
  {
    && |pool.views| <= |pool.fds| && |pool.devicePtrs| <= |pool.fds|
    && (forall i :: 0 <= i < |pool.views| ==> pool.views[i] == Null || pool.views[i] == Host(pool.id, i, 0))
    && (forall i :: 0 <= i < |pool.devicePtrs| ==>
          pool.devicePtrs[i] == Null || pool.devicePtrs[i] == Device(pool.id, i, 0))
    && (lastGood.LastGood? ==>
          && Usable(lastGood.view, pool) && lastGood.view.syncFd == -1
          && lastGood.publishTs == PublishTs(lastGood.view.frame))
  }

  /** What has been seen of the current slot is in order. */
  ghost predicate InStep(meta: Meta, track: Track, lastGood: LastGood, seenNotify: nat, seenSeqno: nat)
  {
    meta.Meta? ==>
      && SlotHistory(meta.hist) && meta.now < |meta.hist|
      && track.returned <= track.taken <= Stored(meta.hist[meta.now])
      && (track.seenHere ==>
            seenNotify <= track.taken && seenNotify <= meta.hist[meta.now].notify && seenSeqno == track.taken)
      && (lastGood.LastGood? ==> track.seenHere && Seqno(lastGood.view.frame) == track.taken)
  }

  /** Why a read between positions `from` and `to` failed: nothing was ready, or every pass overlapped a copy. */
  ghost predicate ReadFailed(h: seq<Slot>, from: nat, to: nat, maxRetry: int, failed: seq<Attempt>)
    requires from < |h| && to < |h|
  {
    && InOrder(failed, from, to) && (forall i :: 0 <= i < |failed| ==> Overlaps(h, failed[i]))
    && (h[from].ready ==> |failed| == if maxRetry < 0 then 0 else maxRetry + 1)
  }

  /** What has_update() saw of the slot between positions `from` and `at`; on a slot without notify, the record it
      read or the passes that failed. */
  datatype Look = Look(from: nat, at: nat, read: Option<Words>, failed: seq<Attempt>)

  /** Nothing new there: the notify word is at its seen value; without one, the record read carries the seqno seen, or
      none could be read. */
  ghost predicate Unchanged(meta: Meta, look: Look, seenNotify: nat, seenSeqno: nat)
  {
    && meta.Meta? && look.from < |meta.hist| && look.at < |meta.hist|
    && if meta.hasNotify then meta.hist[look.at].notify == seenNotify
       else match look.read {
              case Some(d) => Current(meta.hist[look.at], d) && Seqno(d) == seenSeqno
              case None => ReadFailed(meta.hist, look.from, look.at, 8, look.failed)
            }
  }

  /** The test latest_view() puts a descriptor to: it is of this pool, its buffer is known, its fence is at hand. */
  ghost predicate Acceptable(desc: Words, pool: Attachment, stores: seq<Fence>)
  {
    && Generation(desc) == pool.generation
    && BoHandle(desc) < (if pool.deviceBacked then |pool.devicePtrs| else |pool.views|)
    && (NeedsFence(desc) ==> exists f :: f in LastStores(stores) && f.token == FenceToken(desc))
  }

  /** Where buffer i is mapped on the host, and on the device. */
  function HostOf(pool: Attachment, i: nat): Pointer
  {
    if !pool.deviceBacked && i < |pool.views| then pool.views[i] else Null
  }

  function DeviceOf(pool: Attachment, i: nat): Pointer
  {
    if i < |pool.devicePtrs| then pool.devicePtrs[i] else Null
  }

  function Advance(p: Pointer, offset: U64): Pointer
  {
    match p
    case Null => Null
    case Host(a, b, o) => Host(a, b, o + offset)
    case Device(a, b, o) => Device(a, b, o + offset)
  }

  /** A fresh view shows exactly the record read, at the place its buffer is mapped. */
  predicate Shows(v: TensorView, desc: Words, pool: Attachment, clock: U64)
  {
    && v.frame == desc && v.staleness == Wrap64(clock - PublishTs(desc))
    && v.data == Advance(HostOf(pool, BoHandle(desc)), Offset(desc))
    && v.devicePtr == Advance(DeviceOf(pool, BoHandle(desc)), Offset(desc))
  }

  ghost predicate Balanced(fds: seq<Fd>, owned: seq<Fd>, book: Book)
  {
    multiset(fds) + multiset(owned) + book.closed + book.lost == book.received
  }

  /** No descriptor arrives twice: those on the cells to come are new and different. */
  ghost predicate FreshCells(received: multiset<Fd>, cells: seq<Cell>)
  {
    forall f :: (received + multiset(FdsOn(cells)))[f] <= 1
  }

  // ------------------------------------------------------------------ bookkeeping

  lemma NotifyIsStored(s: Slot)
    requires Inv(s)
    ensures s.notify <= Stored(s)
  {
  }

  /** A later state of the slot does not unsettle what was seen of it. */
  lemma SeenLater(h: seq<Slot>, i: nat, j: nat, track: Track, seenNotify: nat, seenSeqno: nat)
    requires i < |h| && j < |h| && Later(h[i], h[j])
    ensures Stored(h[i]) <= Stored(h[j]) && h[i].notify <= h[j].notify
    ensures track.returned <= track.taken <= Stored(h[i]) ==> track.returned <= track.taken <= Stored(h[j])
  {
  }

  /** Closing the old pool and keeping the new bundle keeps the books balanced. */
  lemma SwappedBalance(fds: seq<Fd>, owned: seq<Fd>, book: Book, bundle: seq<Fd>)
    requires Balanced(fds + bundle, owned, book)
    ensures Balanced(bundle, [], book.(closed := book.closed + multiset(fds) + multiset(owned)))
  {
    var p, o, b := multiset(fds), multiset(owned), multiset(bundle);
    assert multiset(fds + bundle) == p + b;
    assert b + multiset([]) + (book.closed + p + o) + book.lost == (p + b) + o + book.closed + book.lost;
  }

  /** Receiving from some cells turns descriptors to come into descriptors received. */
  lemma FreshAfter(received: multiset<Fd>, data: seq<Cell>, p: nat, q: nat, came: seq<Fd>)
    requires p <= q <= |data| && FreshCells(received, data[p..]) && TakenFrom(came, data[p..q])
    ensures FreshCells(received + multiset(came), data[q..])
  {
    assert data[p..] == data[p..q] + data[q..];
    FdsOnConcat(data[p..q], data[q..]);
    var a, b := multiset(FdsOn(data[p..q])), multiset(FdsOn(data[q..]));
    forall f ensures ((received + multiset(came)) + b)[f] <= 1 {
      assert (received + multiset(FdsOn(data[p..])))[f] == received[f] + a[f] + b[f] <= 1;
      assert multiset(came)[f] <= a[f];
    }
  }

  /** The first header's descriptors are among those of any stretch that contains it. */
  lemma FirstBundle(data: seq<Cell>, msgs: seq<Message>, q: nat)
    requires Boundary(data, 0, msgs, 0) && msgs != [] && msgs[0].PoolMsg? && 24 <= q <= |data|
    ensures TakenFrom(msgs[0].fds, data[0..q])
  {
    PoolHeaderAt(data, 0, msgs, 0);
    Carried(data, 0, 0, 24, q);
  }

  /** In the middle of the first message the connection is out of step with every message. */
  lemma NowhereInStep(data: seq<Cell>, pos: nat, msgs: seq<Message>)
    requires Framed(data, msgs) && 0 < pos < |Encode(msgs[0])|
    ensures forall k :: !Boundary(data, pos, msgs, k)
  {
    forall k ensures !Boundary(data, pos, msgs, k) {
      MidBlobIsNoBoundary(data, pos, msgs, k);
    }
  }

  lemma NothingKept(fds: seq<Fd>, owned: seq<Fd>, book: Book)
    ensures Balanced(fds + [], owned, book) <==> Balanced(fds, owned, book)
  {
    assert fds + [] == fds;
  }

  /** Of a bundle received, some descriptors are kept and the others closed. */
  lemma AfterReceive(fds: seq<Fd>, owned: seq<Fd>, book: Book, bundle: seq<Fd>, dropped: seq<Fd>)
    requires Balanced(fds, owned, book)
    ensures Balanced(fds + bundle, owned,
                     Book(book.received + multiset(bundle + dropped), book.closed + multiset(dropped), book.lost))
  {
    var p, o, b, d := multiset(fds), multiset(owned), multiset(bundle), multiset(dropped);
    assert multiset(fds + bundle) == p + b && multiset(bundle + dropped) == b + d;
    assert (p + b) + o + (book.closed + d) + book.lost == (p + o + book.closed + book.lost) + (b + d);
  }

  /** The books after a drain in which `came` was received, `gone` closed and `lost` lost. */
  function Drained(book: Book, came: seq<Fd>, gone: seq<Fd>, lost: seq<Fd>): Book
  {
    Book(book.received + multiset(came + lost), book.closed + multiset(gone), book.lost + multiset(lost))
  }

  /** A drain moves descriptors from "to come" to the ring, the closed ones or the lost ones, and nothing else. */
  lemma AfterDrain(fds: seq<Fd>, owned: seq<Fd>, book: Book, came: seq<Fd>, gone: seq<Fd>, lost: seq<Fd>,
                   owned': seq<Fd>)
    requires Balanced(fds, owned, book) && Ledger(owned, came, gone, owned')
    ensures Balanced(fds, owned', Drained(book, came, gone, lost))
  {
    var p, o, o', g, c := multiset(fds), multiset(owned), multiset(owned'), multiset(gone), multiset(came);
    var d, l, x := book.closed, book.lost, multiset(lost);
    assert multiset(came + lost) == c + x;
    assert p + o' + (d + g) == (p + d) + (g + o') == (p + d) + (o + c) == (p + o + d) + c;
    assert p + o' + (d + g) + (l + x) == ((p + o + d) + c) + (l + x) == (p + o + d + l) + (c + x);
  }

  // ------------------------------------------------------------------ the class

  class TensorSubscriber {
    const client: SidecarClient
    const fences: Ring
    const build: Build

    var pool: Attachment
    var meta: Meta
    var fallback: FallbackPolicy
    var lastGood: LastGood
    var handshakeCount: nat
    var fallbackCount: nat
    var seenNotify: nat
    var seenSeqno: nat

    ghost var track: Track
    ghost var book: Book

    ghost predicate Reading()
      reads this`pool, this`lastGood, this`meta, this`track, this`seenNotify, this`seenSeqno
    {
      Attached(pool, lastGood) && InStep(meta, track, lastGood, seenNotify, seenSeqno)
    }

    /** Each descriptor received is in the pool list, in the ring, closed, or lost. */
    ghost predicate Conserving()
      reads this`pool, this`book, fences, fences.slots
    {
      fences.Valid() && Balanced(pool.fds, fences.Owned(), book)
    }

    /** The descriptors still to come on the connection are new. */
    ghost predicate Linked()
      reads this`book, client`data, client`pos
    {
      client.pos <= |client.data| && FreshCells(book.received, client.data[client.pos..])
    }

    ghost predicate Valid()
      reads this, client, fences, fences.slots
    {
      Reading() && Conserving() && Linked()
    }

    constructor (b: Build)
      ensures Valid() && fresh(client) && fresh(fences) && fresh(fences.slots)
      ensures build == b && meta == NoMeta && pool.fds == [] && book == Book(multiset{}, multiset{}, multiset{})
      ensures seenNotify == 0 && seenSeqno == 0 && track == Track(0, 0, true)
    {
      client := new SidecarClient();
      fences := new Ring();
      build, pool, meta := b, Attachment(0, [], [], [], 0, 0, false), NoMeta;
      fallback, lastGood, handshakeCount, fallbackCount := LastKnownGood, NoLastGood, 0, 0;
      seenNotify, seenSeqno := 0, 0;
      track, book := Track(0, 0, true), Book(multiset{}, multiset{}, multiset{});
    }

    /** Conservation, spelled out: what is not lost in a drain never leaks, and nothing is closed twice. */
    lemma EachFdInOnePlace()
      requires Conserving() && Linked()
      ensures forall f :: f in book.received ==>
        (if f in pool.fds then 1 else 0) + (if f in fences.Owned() then 1 else 0)
        + (if f in book.closed then 1 else 0) + (if f in book.lost then 1 else 0) == 1
      ensures forall f :: f !in book.received ==>
        f !in pool.fds && f !in fences.Owned() && f !in book.closed && f !in book.lost
      ensures forall f :: book.closed[f] <= 1
    {
      var p, r, c, l := multiset(pool.fds), multiset(fences.Owned()), book.closed, book.lost;
      forall f ensures p[f] + r[f] + c[f] + l[f] == book.received[f] <= 1 {
        assert (p + r + c + l)[f] == book.received[f];
        assert (book.received + multiset(FdsOn(client.data[client.pos..])))[f] <= 1;
      }
      forall f ensures (f in pool.fds <==> p[f] > 0) && (f in fences.Owned() <==> r[f] > 0) {
      }
    }

    /** detach: unmap, close the pool's descriptors and the fences, and forget the frame that aliases them. */
    method Detach()
      requires fences.Valid()
      modifies this`pool, this`lastGood, this`book, fences, fences.slots
      ensures fences.Valid() && fences.stores == []
      ensures pool == old(pool).(id := old(pool.id) + 1, fds := [], views := [], devicePtrs := [],
                                 deviceBacked := false)
      ensures lastGood == NoLastGood
      ensures book == old(book).(closed := old(book.closed) + multiset(old(pool.fds)) + multiset(old(fences.Owned())))
    {
      var dropped := fences.Clear();
      book := book.(closed := book.closed + multiset(pool.fds) + multiset(dropped));
      lastGood := NoLastGood;
      pool := pool.(id := pool.id + 1, fds := [], views := [], devicePtrs := [], deviceBacked := false);
    }

    /** The destructor: whatever happened before, every descriptor received and not lost has been closed, once. */
    method Destroy()
      requires Conserving()
      modifies this`pool, this`lastGood, this`book, fences, fences.slots
      ensures book.closed + book.lost == book.received == old(book.received) && book.lost == old(book.lost)
    {
      Detach();
    }

    /** Where a handshake leaves the connection: at a message boundary, or, if the blob was cut, inside the blob. */
    ghost predicate Left(net: Network)
      reads client
    {
      client.msgs != [] &&
      if net.CutsBlob(client.msgs[0]) then client.pos == 24 + net.coming && client.at == 1
      else client.Synced() && client.at == if net.answered then 1 else 0
    }

    /** Receive the bundle on the connection just made and check its version. Of the descriptors that came, `bundle`
        is kept and the rest are closed again. */
    method ReceiveBundle(net: Network) returns (ok: bool, header: PoolHeader, bundle: seq<Fd>, ext: seq<U8>)
      requires Conserving() && Linked() && client.Synced() && !client.shut && client.at == client.pos == 0
      requires client.msgs != [] && client.msgs[0].PoolMsg?
      modifies client`pos, client`at, this`book
      ensures Linked() && book.lost == old(book.lost)
      ensures Balanced(pool.fds + bundle, fences.Owned(), book)
      ensures ok <==> net.Brings(client.msgs[0])
      ensures ok ==> PoolMsg(header, bundle, ext) == client.msgs[0]
      ensures !ok ==> Conserving()
      ensures Left(net)
    {
      ghost var data, log, received, first := client.data, client.msgs, book.received, client.msgs[0];
      var dropped;
      ok, header, bundle, ext, dropped := client.RecvPoolHandshake(net.answered, net.coming);
      ghost var came := if net.answered then first.fds else [];
      if net.answered { FirstBundle(data, log, client.pos); }
      FreshAfter(received, data, 0, client.pos, came);
      if ok && header.wireVersion != WIRE_VERSION {
        dropped := dropped + bundle;
        bundle, ok := [], false;
      }
      assert came == bundle + dropped;
      AfterReceive(pool.fds, fences.Owned(), book, bundle, dropped);
      book := Book(received + multiset(came), book.closed + multiset(dropped), book.lost);
      NothingKept(pool.fds, fences.Owned(), book);
    }

    /** The part of wait_handshake on the socket. */
    method Fetch(stream: seq<Cell>, ghost log: seq<Message>, net: Network)
      returns (ok: bool, header: PoolHeader, bundle: seq<Fd>, ext: seq<U8>)
      requires Conserving() && Linked() && Framed(stream, log) && FreshCells(book.received, stream)
      modifies client, this`book
      ensures Linked() && Balanced(pool.fds + bundle, fences.Owned(), book) && book.lost == old(book.lost)
      ensures ok <==> net.connected && net.Brings(log[0])
      ensures ok ==> PoolMsg(header, bundle, ext) == log[0]
      ensures !ok ==> Conserving()
      ensures net.connected ==> client.data == stream && client.msgs == log && !client.shut
      ensures net.connected ==> Left(net)
      ensures !net.connected ==> unchanged(client) && book == old(book)
    {
      header, bundle, ext := PoolHeader(0, 0, 0, 0, 0, 0), [], [];
      ok := client.Connect(stream, log, net.connected);
      if ok {
        assert stream[0..] == stream;
        ok, header, bundle, ext := ReceiveBundle(net);
      } else {
        NothingKept(pool.fds, fences.Owned(), book);
      }
    }

    /** The kernel or the driver maps each buffer, or refuses. */
    method MapBuffers(onDevice: bool) returns (ps: seq<Pointer>)
      ensures |ps| == |pool.fds|
      ensures forall i :: 0 <= i < |ps| ==>
        ps[i] == Null || ps[i] == if onDevice then Device(pool.id, i, 0) else Host(pool.id, i, 0)
    {
      ps := [];
      for i := 0 to |pool.fds|
        invariant |ps| == i
        invariant forall k :: 0 <= k < i ==>
          ps[k] == Null || ps[k] == if onDevice then Device(pool.id, k, 0) else Host(pool.id, k, 0)
      {
        var refused: bool := *;
        ps := ps + [if refused then Null else if onDevice then Device(pool.id, i, 0) else Host(pool.id, i, 0)];
      }
    }

    /** The attach part of wait_handshake: drop the old pool, keep the new bundle, map what can be mapped. False when
        this build cannot consume the pool. */
    method Adopt(header: PoolHeader, bundle: seq<Fd>, ext: seq<U8>) returns (ok: bool)
      requires fences.Valid() && Balanced(pool.fds + bundle, fences.Owned(), book)
      modifies this`pool, this`lastGood, this`book, fences, fences.slots
      ensures Attached(pool, lastGood) && lastGood == NoLastGood && fences.stores == []
      ensures Conserving() && book.received == old(book.received) && book.lost == old(book.lost)
      ensures pool.fds == bundle && pool.generation == header.generation && pool.id == old(pool.id) + 1
      ensures ok <==> Consumable(header, build)
      ensures pool.deviceBacked == (header.backend == ACCELERATOR)
      ensures ok && !pool.deviceBacked ==> |pool.views| == |pool.fds|
    {
      SwappedBalance(pool.fds, fences.Owned(), book, bundle);
      Detach();
      assert fences.Owned() == [];
      pool := pool.(fds := bundle, bufferSize := header.bufferSize, generation := header.generation,
        deviceBacked := header.backend == ACCELERATOR);
      ok := !pool.deviceBacked || build.cuda;
      if ok {
        var ps := MapBuffers(pool.deviceBacked);
        pool := if pool.deviceBacked then pool.(devicePtrs := ps) else pool.(views := ps);
        if build.jetson && header.backend == NVBUF_SURFACE && |ext| == |pool.fds| * build.nvbufParams {
          var imported := MapBuffers(true);
          pool := pool.(devicePtrs := imported);
        }
      }
    }

    /** create_subscriber succeeded: from here on the slot is `h`. What was seen before stays recorded. */
    method Open(h: seq<Slot>, start: nat, notifyField: bool, ghost same: bool)
      requires SlotHistory(h) && start < |h| && lastGood == NoLastGood
      requires same ==>
        InStep(meta, track, lastGood, seenNotify, seenSeqno) && meta.Meta? && h == meta.hist && meta.now <= start
      modifies this`meta, this`track
      ensures meta == Meta(h, start, notifyField) && InStep(meta, track, lastGood, seenNotify, seenSeqno)
      ensures track == if same then old(track) else Track(0, 0, seenNotify == 0 && seenSeqno == 0)
    {
      if same {
        Monotone(h, meta.now, start);
        SeenLater(h, meta.now, start, track, seenNotify, seenSeqno);
      } else {
        track := Track(0, 0, seenNotify == 0 && seenSeqno == 0);
      }
      meta := Meta(h, start, notifyField);
    }

    /** The rest of wait_handshake, once the bundle is there. `h` and `start` are the run and present position of the
        slot the metadata plane opens, if it opens; `same` says it is the slot already attached. */
    method Install(header: PoolHeader, bundle: seq<Fd>, ext: seq<U8>, opens: bool, h: seq<Slot>, start: nat,
                   notifyField: bool, ghost same: bool) returns (rc: int)
      requires Reading() && fences.Valid() && Balanced(pool.fds + bundle, fences.Owned(), book)
      requires SlotHistory(h) && start < |h|
      requires same ==> meta.Meta? && h == meta.hist && meta.now <= start
      modifies this`pool, this`lastGood, this`book, this`meta, this`track, this`handshakeCount, fences, fences.slots
      ensures Reading() && Conserving() && book.received == old(book.received) && book.lost == old(book.lost)
      ensures lastGood == NoLastGood && fences.stores == [] && pool.id == old(pool.id) + 1
      ensures pool.fds == bundle && pool.generation == header.generation
      ensures rc == if opens && Consumable(header, build) then 0 else -1
      ensures rc == 0 ==> meta == Meta(h, start, notifyField)
      ensures rc != 0 ==> meta == if Consumable(header, build) then NoMeta else old(meta)
      ensures pool.deviceBacked == (header.backend == ACCELERATOR)
      ensures rc == 0 && !pool.deviceBacked ==> |pool.views| == |pool.fds|
      ensures rc == 0 && !same ==> track.taken == track.returned == 0
      ensures rc == 0 && same ==> track == old(track)
      ensures rc == 0 ==> track.seenHere == if same then old(track.seenHere) else seenNotify == 0 && seenSeqno == 0
      ensures handshakeCount == old(handshakeCount) + (if rc == 0 then 1 else 0)
    {
      rc := -1;
      var ok := Adopt(header, bundle, ext);
      if ok && !opens {
        meta := NoMeta;
      } else if ok {
        Open(h, start, notifyField, same);
        handshakeCount := handshakeCount + 1;
        rc := 0;
      }
    }

    /** wait_handshake. Afterwards the connection, if it was made, is in step with its messages unless the blob was
        cut. */
    method WaitHandshake(stream: seq<Cell>, ghost log: seq<Message>, net: Network, opens: bool, h: seq<Slot>,
                         start: nat, notifyField: bool, ghost same: bool) returns (rc: int)
      requires Valid() && Framed(stream, log) && FreshCells(book.received, stream)
      requires SlotHistory(h) && start < |h|
      requires same ==> meta.Meta? && h == meta.hist && meta.now <= start
      modifies this`pool, this`lastGood, this`book, this`meta, this`track, this`handshakeCount,
               client, fences, fences.slots
      ensures Valid() && book.lost == old(book.lost)
      ensures rc == if net.connected && net.Brings(log[0]) && Consumable(log[0].header, build) && opens then 0 else -1
      ensures rc == 0 ==> meta == Meta(h, start, notifyField) && fences.stores == []
      ensures rc == 0 ==> pool.fds == log[0].fds && pool.generation == log[0].header.generation
      ensures rc == 0 ==> pool.deviceBacked == (log[0].header.backend == ACCELERATOR)
      ensures rc == 0 && !pool.deviceBacked ==> |pool.views| == |pool.fds|
      ensures rc == 0 ==> track.seenHere == if same then old(track.seenHere) else seenNotify == 0 && seenSeqno == 0
      ensures rc == 0 && !same ==> track.taken == track.returned == 0
      ensures rc == 0 && same ==> track == old(track)
      ensures net.connected ==> client.data == stream && client.msgs == log && !client.shut
      ensures net.connected && !net.CutsBlob(log[0]) ==> client.Synced() && client.at == if net.answered then 1 else 0
      ensures net.connected && net.CutsBlob(log[0]) ==> forall k :: !Boundary(client.data, client.pos, client.msgs, k)
      ensures net.connected && net.CutsBlob(log[0]) ==> client.pos == 24 + net.coming && client.at == 1
      ensures !net.connected ==> unchanged(client)
      ensures if net.connected && net.Brings(log[0]) then pool.id == old(pool.id) + 1 && lastGood == NoLastGood
              else pool == old(pool) && lastGood == old(lastGood) && meta == old(meta)
                   && fences.stores == old(fences.stores)
      ensures handshakeCount == old(handshakeCount) + (if rc == 0 then 1 else 0)
    {
      rc := -1;
      var ok, header, bundle, ext := Fetch(stream, log, net);
      if net.connected && net.CutsBlob(log[0]) {
        NowhereInStep(client.data, client.pos, client.msgs);
      }
      if ok {
        rc := Install(header, bundle, ext, opens, h, start, notifyField, same);
      }
    }

    /** drain_fences: at least the first `arrived` messages of the connection are in the socket by now. Conservation
        holds whatever the state of the connection, and what is lost is what comes on a receive that the kernel ends
        early. With every header received in full nothing is, and in step exactly the fences sent are stored. */
    method DrainFences(arrived: nat, cut: Option<nat>) returns (count: nat, ghost starts: seq<nat>, ghost stop: nat)
      requires Conserving() && Linked()
      modifies client`pos, client`at, client`shut, this`book, fences, fences.slots
      ensures Conserving() && Linked()
      ensures Chain(client.data, old(client.pos), starts) && client.at == old(client.at) + |starts|
      ensures client.shut || stop == EndOf(client.data, old(client.pos), starts)
      ensures stop <= client.pos
      ensures client.pos == if cut == None || client.shut then stop else CutAt(client.data, stop, cut.value)
      ensures cut.Some? ==> book.lost == old(book.lost) + multiset(FdsOn(client.data[stop..client.pos]))
      ensures cut == None || client.shut ==> book.lost == old(book.lost)
      ensures starts == [] ==> client.shut == old(client.shut)
      ensures fences.stores == old(fences.stores) + FencesRead(client.data, starts)
      ensures count == |FencesRead(client.data, starts)|
      ensures cut == None ==> client.shut || arrived <= client.at || !HeaderWhole(client.data, client.pos)
      ensures old(client.shut) ==> client.shut && starts == []
      ensures cut == None && old(client.Synced()) && !old(client.shut) ==>
        DeliveredInStep(client.data, client.pos, client.shut, client.msgs, old(client.at), client.at, starts, arrived)
    {
      ghost var p, owned, received := client.pos, fences.Owned(), book.received;
      var gone;
      ghost var lost;
      count, gone, starts, stop, lost := client.PollSyncFences(fences, arrived, cut);
      ghost var came := FdsRead(client.data, starts);
      ReadIsCarried(client.data, p, starts, stop);
      TakenStep(client.data, p, stop, client.pos, client.pos, came, lost, came + lost);
      FreshAfter(received, client.data, p, client.pos, came + lost);
      AfterDrain(pool.fds, owned, book, came, gone, lost, fences.Owned());
      book := Drained(book, came, gone, lost);
    }

    /** drain_fences in step, where every header comes in full: exactly the fences of the messages consumed. */
    method DrainInStep(arrived: nat) returns (count: nat)
      requires Conserving() && Linked() && client.Synced() && !client.shut
      modifies client`pos, client`at, client`shut, this`book, fences, fences.slots
      ensures Conserving() && Linked() && book.lost == old(book.lost)
      ensures old(client.at) <= client.at <= |client.msgs|
      ensures fences.stores == old(fences.stores) + FencesOf(client.msgs[old(client.at)..client.at])
      ensures client.shut || (client.Synced() && (arrived <= client.at || arrived > |client.msgs|))
    {
      ghost var a, starts, stop := client.at, [], 0;
      count, starts, stop := DrainFences(arrived, None);
      DeliveredUpTo(client.data, client.pos, client.shut, client.msgs, a, client.at, starts, arrived);
    }

    /** The loads latest_view() makes: notify first, then the descriptor. */
    method ReadFrame(maxRetry: int)
      returns (ok: bool, desc: Words, retries: int, notifyNow: nat, ghost failed: seq<Attempt>)
      requires meta.Meta? && SlotHistory(meta.hist) && meta.now < |meta.hist|
      modifies this`meta
      ensures meta.Meta? && meta == old(meta).(now := meta.now) && old(meta.now) <= meta.now < |meta.hist|
      ensures Later(meta.hist[old(meta.now)], meta.hist[meta.now])
      ensures Stored(meta.hist[old(meta.now)]) <= Stored(meta.hist[meta.now])
      ensures notifyNow <= meta.hist[meta.now].notify && (!meta.hasNotify ==> notifyNow == 0)
      ensures meta.hasNotify ==> meta.hist[old(meta.now)].notify <= notifyNow
      ensures ok ==> Seqno(desc) == Stored(meta.hist[meta.now]) && notifyNow <= Stored(meta.hist[meta.now])
      ensures ok ==> Current(meta.hist[meta.now], desc)
      ensures !ok ==> ReadFailed(meta.hist, old(meta.now), meta.now, maxRetry, failed)
    {
      var h := meta.hist;
      var t: nat :| meta.now <= t < |h|;
      notifyNow := if meta.hasNotify then h[t].notify else 0;
      var next;
      ghost var last;
      ok, desc, retries, next, failed, last := ReadLatest(h, t, maxRetry);
      Monotone(h, meta.now, t);
      Monotone(h, t, next);
      Monotone(h, meta.now, next);
      if ok {
        CurrentIsVersioned(h, next, desc);
        NotifyIsStored(h[t]);
      }
      meta := meta.(now := next);
    }

    /** latest_view()'s test, and the fence to wait on. */
    method Accepts(desc: Words) returns (ok: bool, fenceFd: int)
      requires fences.Valid()
      ensures ok <==> Acceptable(desc, pool, fences.stores)
      ensures ok && NeedsFence(desc) ==> fenceFd >= 0 && Fence(FenceToken(desc), fenceFd) in LastStores(fences.stores)
      ensures ok && !NeedsFence(desc) ==> fenceFd == -1
    {
      if Generation(desc) != pool.generation { return false, -1; }
      fenceFd := -1;
      if NeedsFence(desc) {
        fenceFd := fences.Lookup(FenceToken(desc));
        if fenceFd < 0 { return false, -1; }
      }
      ok := BoHandle(desc) < if pool.deviceBacked then |pool.devicePtrs| else |pool.views|;
    }

    /** The view of an accepted descriptor, kept as the last good one. */
    method HandOut(desc: Words, retries: int, fenceFd: int, notifyNow: nat, clock: U64) returns (v: TensorView)
      requires Attached(pool, lastGood) && Generation(desc) == pool.generation
      requires BoHandle(desc) < if pool.deviceBacked then |pool.devicePtrs| else |pool.views|
      modifies this`lastGood, this`seenNotify, this`seenSeqno, this`track
      ensures lastGood == LastGood(v.(syncFd := -1), PublishTs(desc)) && Attached(pool, lastGood)
      ensures seenNotify == notifyNow && seenSeqno == Seqno(desc) && track == Track(Seqno(desc), Seqno(desc), true)
      ensures v.retries == retries && v.syncFd == fenceFd
      ensures Shows(v, desc, pool, clock) && Usable(v, pool)
    {
      var idx := BoHandle(desc);
      var host := if pool.deviceBacked then Null else pool.views[idx];
      var dev := if pool.deviceBacked then pool.devicePtrs[idx]
                 else if idx < |pool.devicePtrs| then pool.devicePtrs[idx] else Null;
      v := TensorView(Advance(host, Offset(desc)), Advance(dev, Offset(desc)), desc,
                      Wrap64(clock - PublishTs(desc)), fenceFd, retries);
      lastGood := LastGood(v.(syncFd := -1), PublishTs(desc));
      seenNotify, seenSeqno := notifyNow, Seqno(desc);
      track := Track(Seqno(desc), Seqno(desc), true);
    }

    /** The reading half of latest_view: a record, if the reads and the test let one through. */
    method TryRead(maxRetry: int)
      returns (ok: bool, desc: Words, retries: int, notifyNow: nat, fenceFd: int,
               read: Option<Words>, ghost failed: seq<Attempt>)
      requires meta.Meta? && Reading() && fences.Valid()
      modifies this`meta
      ensures Reading() && meta.Meta? && meta == old(meta).(now := meta.now) && old(meta.now) <= meta.now
      ensures read.Some? ==> Current(meta.hist[meta.now], read.value)
      ensures read.None? ==> ReadFailed(meta.hist, old(meta.now), meta.now, maxRetry, failed)
      ensures ok <==> read.Some? && Acceptable(read.value, pool, fences.stores)
      ensures ok ==> read == Some(desc) && Seqno(desc) == Stored(meta.hist[meta.now])
      ensures ok ==> notifyNow <= Seqno(desc) && notifyNow <= meta.hist[meta.now].notify
      ensures ok && !meta.hasNotify ==> notifyNow == 0
      ensures ok ==> Stored(meta.hist[old(meta.now)]) <= Seqno(desc)
      ensures ok && meta.hasNotify ==> meta.hist[old(meta.now)].notify <= notifyNow
      ensures ok && NeedsFence(desc) ==> fenceFd >= 0 && Fence(FenceToken(desc), fenceFd) in LastStores(fences.stores)
    {
      ok, desc, retries, notifyNow, failed := ReadFrame(maxRetry);
      read := if ok then Some(desc) else None;
      SeenLater(meta.hist, old(meta.now), meta.now, track, seenNotify, seenSeqno);
      fenceFd := -1;
      if ok { ok, fenceFd := Accepts(desc); }
    }

    /** What the policy gives instead of a fresh frame. */
    method Fallback(retries: int, clock: U64) returns (view: Option<TensorView>)
      requires meta.Meta? && Reading()
      modifies this`fallbackCount, this`track
      ensures Reading() && fallbackCount == old(fallbackCount) + 1
      ensures view.Some? <==> fallback == LastKnownGood && lastGood.LastGood?
      ensures view.Some? ==>
        && view.value == lastGood.view.(staleness := Wrap64(clock - PublishTs(lastGood.view.frame)), retries := retries)
        && Usable(view.value, pool) && view.value.syncFd == -1 && Seqno(view.value.frame) == track.taken
      ensures track == if view.Some? then old(track).(returned := track.taken) else old(track)
      ensures track.taken == old(track.taken) && old(track.returned) <= track.returned
    {
      fallbackCount := fallbackCount + 1;
      if fallback != LastKnownGood || lastGood == NoLastGood { return None; }
      track := track.(returned := track.taken);
      view := Some(lastGood.view.(staleness := Wrap64(clock - lastGood.publishTs), retries := retries));
    }

    /** latest_view. */
    method LatestView(maxRetry: int, clock: U64)
      returns (view: Option<TensorView>, isNew: bool, read: Option<Words>, ghost failed: seq<Attempt>)
      requires Reading() && fences.Valid()
      modifies this`meta, this`lastGood, this`fallbackCount, this`seenNotify, this`seenSeqno, this`track
      ensures Reading()
      ensures if old(meta.Meta?) then meta.Meta? && meta == old(meta).(now := meta.now) && old(meta.now) <= meta.now
              else meta == NoMeta
      // Whatever is handed out, fresh or not, points into the current attachment and is of its generation.
      ensures view.Some? ==> meta.Meta? && Usable(view.value, pool)
      // Seqnos never go back, fallbacks included; a reused frame keeps ageing.
      ensures view.Some? ==> old(track.returned) <= track.returned == Seqno(view.value.frame) == track.taken
      ensures view.Some? ==> view.value.staleness == Wrap64(clock - PublishTs(view.value.frame))
      ensures view.None? ==> track == old(track)
      // It is fresh exactly if a record was read that passes the test.
      ensures isNew <==> read.Some? && Acceptable(read.value, pool, fences.stores)
      ensures isNew ==> view.Some? && Shows(view.value, read.value, pool, clock)
      ensures read.Some? ==> meta.Meta? && Current(meta.hist[meta.now], read.value)
      ensures read.None? && meta.Meta? ==> ReadFailed(meta.hist, old(meta.now), meta.now, maxRetry, failed)
      // A fresh frame is at least as new as everything published before the call, and commits what was seen.
      ensures isNew ==> view.Some? && track.seenHere && seenSeqno == track.taken && seenNotify <= track.taken
      ensures isNew ==> Stored(meta.hist[old(meta.now)]) <= track.taken
      ensures isNew && meta.hasNotify ==> meta.hist[old(meta.now)].notify <= seenNotify
      ensures isNew && !meta.hasNotify ==> seenNotify == 0
      ensures isNew && NeedsFence(view.value.frame) ==>
        view.value.syncFd >= 0 && Fence(FenceToken(view.value.frame), view.value.syncFd) in LastStores(fences.stores)
      // Otherwise the fallback policy decides, and nothing counts as seen.
      ensures !isNew ==> seenNotify == old(seenNotify) && seenSeqno == old(seenSeqno) && lastGood == old(lastGood)
      ensures !isNew ==> track.taken == old(track.taken) && track.seenHere == old(track.seenHere)
      ensures !isNew ==> (view.Some? <==> meta.Meta? && fallback == LastKnownGood && lastGood.LastGood?)
      ensures !isNew && view.Some? ==> view.value.frame == lastGood.view.frame && view.value.syncFd == -1
      ensures fallbackCount == old(fallbackCount) + (if meta.Meta? && !isNew then 1 else 0)
    {
      isNew, view, read, failed := false, None, None, [];
      if meta.Meta? {
        var desc, retries, notifyNow, fenceFd;
        isNew, desc, retries, notifyNow, fenceFd, read, failed := TryRead(maxRetry);
        if isNew {
          var v := HandOut(desc, retries, fenceFd, notifyNow, clock);
          view := Some(v);
        } else {
          view := Fallback(retries, clock);
        }
      }
    }

    /** has_update: a notify word that differs, or on an old slot a readable descriptor with another seqno. */
    method HasUpdate() returns (update: bool, ghost look: Look)
      requires meta.Meta? && InStep(meta, track, lastGood, seenNotify, seenSeqno)
      modifies this`meta
      ensures meta.Meta? && meta == old(meta).(now := meta.now) && old(meta.now) <= meta.now
      ensures InStep(meta, track, lastGood, seenNotify, seenSeqno)
      ensures look.from == old(meta.now) && look.at == meta.now
      ensures update <==> !Unchanged(meta, look, seenNotify, seenSeqno)
      ensures update && !meta.hasNotify ==> look.read.Some? && Current(meta.hist[meta.now], look.read.value)
      // No update: the last fresh frame is at least as new as every publish that has bumped notify.
      ensures meta.hasNotify && track.seenHere && !update ==> meta.hist[meta.now].notify <= track.taken
      // An update on a slot without notify is a newer frame, never a spurious one.
      ensures !meta.hasNotify && track.seenHere && update ==> track.taken < Stored(meta.hist[meta.now])
    {
      ghost var start := meta.now;
      look := Look(start, start, None, []);
      if meta.hasNotify {
        var t: nat :| meta.now <= t < |meta.hist|;
        Monotone(meta.hist, start, t);
        meta := meta.(now := t);
        update := meta.hist[t].notify != seenNotify;
        look := Look(start, t, None, []);
      } else {
        var ok, desc, retries, notifyNow;
        ghost var failed;
        ok, desc, retries, notifyNow, failed := ReadFrame(8);
        look := Look(start, meta.now, if ok then Some(desc) else None, failed);
        update := ok && Seqno(desc) != seenSeqno;
      }
      SeenLater(meta.hist, start, meta.now, track, seenNotify, seenSeqno);
    }
  }
}
