/** A publisher that restarts: what "no update" is worth on the new slot.

    The notify value and the seqno a subscriber has seen survive a re-handshake, while a restarted publisher counts from
    zero again. On a slot with a notify word the check goes by the former, on one without by the latter. */
module Restart {
  import opened Machine
  import opened Descriptor
  import opened Seqlock
  import opened Channel
  import opened Stranded
  import opened FenceRing
  import opened Wire
  import opened Sidecar
  import opened Subscriber

  /** A record that carries seqno n and is zero otherwise. */
  function Numbered(n: U64): (d: Words)
    ensures Seqno(d) == n
  {
    ZEROS[1 := n]
  }

  /** At the end of h the publisher is at rest and has published n records. */
  ghost predicate AtEnd(h: seq<Slot>, n: nat)
  {
    && h != [] && h[|h| - 1].phase == Idle && h[|h| - 1].notify == Stored(h[|h| - 1]) == |h[|h| - 1].published| == n
    && (n > 0 ==> h[|h| - 1].ready)
  }

  /** For every n there is a slot on which exactly n records were published. */
  lemma HistoryOf(n: nat) returns (h: seq<Slot>)
    requires n < TWO_64
    ensures SlotHistory(h) && AtEnd(h, n)
  {
    h := SoloPublishes(EMPTY, seq(n, i requires 0 <= i < n => Numbered(i + 1)));
    forall t: nat | t + 1 < |h| ensures StepAt(h, t) {
      assert MovesAt(h, t);
    }
  }

  // ------------------------------------------------------------------ a smallest connection

  /** A bundle of host buffers, as a publisher of generation 0 announces it. */
  function Bundle(fds: seq<Fd>): (m: Message)
    requires |fds| <= MAX_FDS
    ensures WellFormed(m)
  {
    PoolMsg(PoolHeader(2, 0, WIRE_VERSION, 0, |fds|, 4096), fds, [])
  }

  lemma BundleCells(fds: seq<Fd>)
    requires |fds| <= MAX_FDS
    ensures Framed(EncodeAll([Bundle(fds)]), [Bundle(fds)]) && FdsOn(EncodeAll([Bundle(fds)])) == fds
  {
    var head := HeaderBytes(Bundle(fds).header);
    assert [Bundle(fds)][1..] == [] && Cells([], []) == [];
    assert EncodeAll([Bundle(fds)]) == Cells(head, fds);
    CellsCarry(head, fds);
  }

  lemma NothingNew(received: multiset<Fd>, cells: seq<Cell>, others: seq<Cell>)
    requires FreshCells(received, cells) && FdsOn(others) == []
    ensures FreshCells(received, others)
  {
    forall f ensures (received + multiset(FdsOn(others)))[f] <= 1 {
      assert (received + multiset(FdsOn(cells)))[f] <= 1;
    }
  }

  // ------------------------------------------------------------------ when "no update" can be trusted

  /** How many records the check goes by: those that bumped notify, or without a notify word those in place. */
  function Newest(s: Slot, notifyField: bool): nat { if notifyField then s.notify else Stored(s) }

  /** Nothing is remembered that the check on such a slot would go by. */
  predicate Unspoilt(notifyField: bool, seenNotify: nat, seenSeqno: nat)
  {
    if notifyField then seenNotify == 0 else seenSeqno == 0
  }

  /** Handshake again, then ask for an update. Unless the check had to read the slot and could not, "no update"
      means that the last frame taken from this slot is as new as any, provided the subscriber had taken a frame
      from this very slot before, or remembers nothing the check goes by: both can be told before the call. If it
      could not read, all that is known is that nothing was ready or that every pass overlapped a publish. */
  method HandshakeAndAsk(s: TensorSubscriber, stream: seq<Cell>, ghost log: seq<Message>, net: Network, h: seq<Slot>,
                         start: nat, notifyField: bool, ghost same: bool)
    returns (rc: int, update: bool, ghost look: Look)
    requires s.Valid() && Framed(stream, log) && FreshCells(s.book.received, stream)
    requires SlotHistory(h) && start < |h|
    requires same ==> s.meta.Meta? && h == s.meta.hist && s.meta.now <= start
    modifies s, s.client, s.fences, s.fences.slots
    ensures s.Valid() && s.seenNotify == old(s.seenNotify) && s.seenSeqno == old(s.seenSeqno)
    ensures rc == 0 ==> s.meta.Meta? && s.meta.hist == h && start <= s.meta.now
    ensures rc == 0 && !update && (notifyField || look.read.Some?)
            && ((same && old(s.track.seenHere)) || old(Unspoilt(notifyField, s.seenNotify, s.seenSeqno))) ==>
      Newest(h[s.meta.now], notifyField) <= s.track.taken
    ensures rc == 0 && !update && !notifyField && look.read.None? ==>
      look.from < |h| && s.meta.now < |h| && ReadFailed(h, look.from, s.meta.now, 8, look.failed)
  {
    update, look := false, Look(0, 0, None, []);
    rc := s.WaitHandshake(stream, log, net, true, h, start, notifyField, same);
    if rc == 0 {
      update, look := s.HasUpdate();
      if look.read.Some? && Current(h[s.meta.now], look.read.value) {
        CurrentIsVersioned(h, s.meta.now, look.read.value);
      }
    }
  }

  /** A handshake that brings an empty bundle, onto the slot h as it is at the end. */
  method AttachTo(s: TensorSubscriber, h: seq<Slot>, notifyField: bool) returns (rc: int)
    requires s.Valid() && SlotHistory(h)
    modifies s, s.client, s.fences, s.fences.slots
    ensures s.Valid() && s.seenNotify == old(s.seenNotify) && s.seenSeqno == old(s.seenSeqno) && rc == 0
    ensures s.meta == Meta(h, |h| - 1, notifyField) && s.track.taken == 0
  {
    var log := [Bundle([])];
    BundleCells([]);
    NothingNew(s.book.received, s.client.data[s.client.pos..], EncodeAll(log));
    rc := s.WaitHandshake(EncodeAll(log), log, Network(true, true, 0), true, h, |h| - 1, notifyField, false);
  }

  /** On slot h "no update" can be trusted, wherever in its history it is asked for: with the given values
      remembered, and unless the check had to read and could not, it implies that the last frame taken is as new as
      any. */
  ghost predicate Trusted(h: seq<Slot>, notifyField: bool, seenNotify: nat, seenSeqno: nat, taken: nat)
  {
    forall p: nat, look: Look ::
      p < |h| && look.at == p && (notifyField || look.read.Some?)
      && Unchanged(Meta(h, p, notifyField), look, seenNotify, seenSeqno) ==>
        Newest(h[p], notifyField) <= taken
  }

  lemma UnspoiltIsTrusted(h: seq<Slot>, notifyField: bool, seenNotify: nat, seenSeqno: nat)
    requires SlotHistory(h) && Unspoilt(notifyField, seenNotify, seenSeqno)
    ensures Trusted(h, notifyField, seenNotify, seenSeqno, 0)
  {
    forall p: nat, look: Look
      | p < |h| && look.at == p && (notifyField || look.read.Some?)
        && Unchanged(Meta(h, p, notifyField), look, seenNotify, seenSeqno)
      ensures Newest(h[p], notifyField) <= 0
    {
      if !notifyField {
        CurrentIsVersioned(h, p, look.read.value);
      }
    }
  }

  /** After a handshake onto a slot from which nothing was taken yet, it can be trusted on whatever slot that is exactly
      if the value the check goes by is remembered as 0. */
  lemma NewSlotTrustedIff(notifyField: bool, seenNotify: nat, seenSeqno: nat)
    requires seenNotify < TWO_64 && seenSeqno < TWO_64
    ensures (forall h: seq<Slot> :: SlotHistory(h) ==> Trusted(h, notifyField, seenNotify, seenSeqno, 0))
            <==> Unspoilt(notifyField, seenNotify, seenSeqno)
  {
    if Unspoilt(notifyField, seenNotify, seenSeqno) {
      forall h: seq<Slot> | SlotHistory(h) ensures Trusted(h, notifyField, seenNotify, seenSeqno, 0) {
        UnspoiltIsTrusted(h, notifyField, seenNotify, seenSeqno);
      }
    } else {
      var h := HistoryOf(if notifyField then seenNotify else seenSeqno);
      var p: nat := |h| - 1;
      Monotone(h, p, p);
      var d := Latest(h[p]);
      CurrentIsVersioned(h, p, d);
      var look := Look(p, p, Some(d), []);
      assert Unchanged(Meta(h, p, notifyField), look, seenNotify, seenSeqno);
      assert !Trusted(h, notifyField, seenNotify, seenSeqno, 0);
    }
  }

  lemma NoOverlapNow(h: seq<Slot>, i: nat, a: Attempt)
    requires i < |h| && !h[i].phase.Copying? && a == Attempt(i, i)
    ensures !Overlaps(h, a)
  {
  }

  /** While nothing moves and no copy is in progress, a read of a ready slot cannot fail. */
  lemma StillMeansRead(h: seq<Slot>, i: nat, failed: seq<Attempt>)
    requires i < |h| && !h[i].phase.Copying? && h[i].ready
    ensures !ReadFailed(h, i, i, 8, failed)
  {
    if failed != [] && failed[0] == Attempt(i, i) {
      NoOverlapNow(h, i, failed[0]);
    }
  }

  /** Asked at the end of a slot's history. */
  method AskAtTheEnd(s: TensorSubscriber, h: seq<Slot>, notifyField: bool) returns (update: bool, ghost look: Look)
    requires s.Reading() && SlotHistory(h) && s.meta == Meta(h, |h| - 1, notifyField)
    modifies s`meta
    ensures s.Reading() && s.meta == Meta(h, |h| - 1, notifyField)
    ensures notifyField ==> (update <==> h[|h| - 1].notify != s.seenNotify)
    ensures !notifyField && h[|h| - 1].ready && !h[|h| - 1].phase.Copying? ==>
      look.read.Some? && (update <==> Stored(h[|h| - 1]) != s.seenSeqno)
    ensures !notifyField && h[|h| - 1].phase.Copying? ==> look.read.None? && !update
  {
    update, look := s.HasUpdate();
    if look.read.Some? && Current(h[|h| - 1], look.read.value) {
      CurrentIsVersioned(h, |h| - 1, look.read.value);
    }
    if h[|h| - 1].ready && !h[|h| - 1].phase.Copying? {
      StillMeansRead(h, |h| - 1, look.failed);
    }
  }

  method AskAtRest(s: TensorSubscriber, h: seq<Slot>, notifyField: bool, ghost n: nat)
    returns (update: bool, ghost look: Look)
    requires s.Reading() && SlotHistory(h) && s.meta == Meta(h, |h| - 1, notifyField) && AtEnd(h, n) && n > 0
    modifies s`meta
    ensures s.Reading() && s.meta == Meta(h, |h| - 1, notifyField)
    ensures update <==> (if notifyField then s.seenNotify else s.seenSeqno) != n
    ensures notifyField || look.read.Some?
  {
    update, look := AskAtTheEnd(s, h, notifyField);
  }

  /** Otherwise it cannot be trusted. Whatever a subscriber has been through, if the value the check goes by is
      remembered as n > 0, then on the slot of a restarted publisher that has published n records it is told "no
      update", although it has taken none of the frames there, and the slot could be read. HistoryOf gives such a
      slot for every n. */
  method MissedUpdate(s: TensorSubscriber, h: seq<Slot>, notifyField: bool)
    returns (rc: int, update: bool, ghost look: Look)
    requires s.Valid() && SlotHistory(h) && !Unspoilt(notifyField, s.seenNotify, s.seenSeqno)
    requires AtEnd(h, if notifyField then s.seenNotify else s.seenSeqno)
    modifies s, s.client, s.fences, s.fences.slots
    ensures s.Valid() && s.seenNotify == old(s.seenNotify) && s.seenSeqno == old(s.seenSeqno)
    ensures rc == 0 && !update && (notifyField || look.read.Some?)
    ensures s.meta == Meta(h, |h| - 1, notifyField) && s.track.taken == 0 < Newest(h[s.meta.now], notifyField)
  {
    rc := AttachTo(s, h, notifyField);
    ghost var n := if notifyField then s.seenNotify else s.seenSeqno;
    update, look := AskAtRest(s, h, notifyField, n);
    assert Newest(h[|h| - 1], notifyField) == n;
  }

  // ------------------------------------------------------------------ a concrete run

  function Below(k: nat): (s: set<nat>)
    ensures forall i: nat :: i in s <==> i < k
  {
    if k == 0 then {} else Below(k - 1) + {k - 1}
  }

  /** The first k words of d, and zeros. */
  function Filled(d: Words, k: nat): (w: Words)
    requires k <= WORDS
    ensures forall i :: 0 <= i < WORDS ==> w[i] == if i < k then d[i] else 0
  {
    if k == 0 then ZEROS else Filled(d, k - 1)[k - 1 := d[k - 1]]
  }

  /** The slot while the first k words of the first record are in place. */
  function Half(d: Words, k: nat): (s: Slot)
    requires k <= WORDS
  {
    Slot(1, false, Filled(d, k), 0, false, Copying(Below(k)), [d])
  }

  /** The life of a slot on which one record is published, in word order, with nobody waiting. */
  function OnePublish(d: Words): (h: seq<Slot>)
    ensures |h| == 24 && h[23] == Slot(2, true, d, 1, false, Idle, [d])
  {
    var sealed := Slot(2, false, d, 0, false, Sealed, [d]);
    var readied := sealed.(ready := true, phase := Readied);
    var bumped := readied.(notify := 1, phase := Bumped);
    [EMPTY] + seq(19, k requires 0 <= k < 19 => Half(d, k)) + [sealed, readied, bumped, bumped.(phase := Idle)]
  }

  lemma HalfStep(d: Words, k: nat)
    requires k < WORDS
    ensures SlotStep(Half(d, k), Half(d, k + 1))
  {
    assert CopyWord(Half(d, k), Half(d, k + 1), k);
  }

  lemma OnePublishIsHistory(d: Words)
    requires Seqno(d) == 1
    ensures SlotHistory(OnePublish(d))
  {
    var h := OnePublish(d);
    forall i: nat | i + 1 < |h| ensures StepAt(h, i) {
      if i == 0 {
        assert Begin(h[0], h[1], d);
      } else if i < 19 {
        HalfStep(d, i - 1);
      } else if i == 19 {
        assert Filled(d, WORDS) == d;
        assert Seal(h[19], h[20]);
      } else if i == 20 {
        assert MakeReady(h[20], h[21]);
      } else if i == 21 {
        assert Bump(h[21], h[22]);
      } else {
        assert TakeFlag(h[22], h[23]);
      }
    }
  }

  /** At the end of that life nothing overlaps a read, so a read succeeds, and its record passes the test. */
  lemma OnlyFrameIsTaken(pool: Attachment, stores: seq<Fence>, read: Option<Words>, failed: seq<Attempt>)
    requires var h := OnePublish(Numbered(1));
             if read.Some? then Current(h[23], read.value) else ReadFailed(h, 23, 23, 8, failed)
    requires pool.generation == 0 && !pool.deviceBacked && |pool.views| > 0
    ensures read == Some(Numbered(1)) && Acceptable(Numbered(1), pool, stores)
  {
    StillMeansRead(OnePublish(Numbered(1)), 23, failed);
  }

  method AttachToOneFrame(notifyField: bool) returns (s: TensorSubscriber)
    ensures fresh(s) && fresh(s.client) && fresh(s.fences) && fresh(s.fences.slots) && s.Valid()
    ensures s.meta == Meta(OnePublish(Numbered(1)), 23, notifyField)
    ensures s.pool.generation == 0 && !s.pool.deviceBacked && |s.pool.views| > 0
  {
    s := new TensorSubscriber(Build(false, false, 0));
    OnePublishIsHistory(Numbered(1));
    var log := [Bundle([5])];
    BundleCells([5]);
    var net := Network(true, true, 0);
    var rc := s.WaitHandshake(EncodeAll(log), log, net, true, OnePublish(Numbered(1)), 23, notifyField, false);
  }

  /** A subscriber attaches to a slot on which one frame was published, and takes it. */
  method TakeOneFrame(notifyField: bool) returns (s: TensorSubscriber)
    ensures fresh(s) && fresh(s.client) && fresh(s.fences) && fresh(s.fences.slots) && s.Valid()
    ensures s.seenSeqno == 1 && s.seenNotify == if notifyField then 1 else 0
  {
    s := AttachToOneFrame(notifyField);
    var view, isNew, read;
    ghost var failed;
    view, isNew, read, failed := s.LatestView(8, 0);
    OnlyFrameIsTaken(s.pool, s.fences.stores, read, failed);
  }

  /** A publisher publishes one frame, a subscriber attaches and takes it. The publisher restarts and publishes one
      frame; the subscriber handshakes again. There is a frame it has not seen, and it is told there is none. It
      goes that way with a notify word and without. */
  method RestartedPublisher(notifyField: bool) returns (s: TensorSubscriber, update: bool, ghost look: Look)
    ensures fresh(s) && s.Valid() && s.seenSeqno == 1 && s.seenNotify == if notifyField then 1 else 0
    ensures !update && (notifyField || look.read.Some?)
    ensures s.meta.Meta? && s.meta.hasNotify == notifyField && s.track.taken == 0
    ensures Newest(s.meta.hist[s.meta.now], notifyField) == 1
  {
    s := TakeOneFrame(notifyField);
    OnePublishIsHistory(Numbered(1));
    var rc;
    rc, update, look := MissedUpdate(s, OnePublish(Numbered(1)), notifyField);
  }

  // ------------------------------------------------------------------ a check that cannot read

  /** One record is published, and the next is being copied. */
  function SecondBegun(d: Words, e: Words): (h: seq<Slot>)
    ensures |h| == 25 && h[24] == Slot(3, true, d, 1, false, Copying({}), [d, e])
  {
    OnePublish(d) + [Slot(3, true, d, 1, false, Copying({}), [d, e])]
  }

  lemma SecondBegunIsHistory(d: Words, e: Words)
    requires Seqno(d) == 1 && Seqno(e) == 2
    ensures SlotHistory(SecondBegun(d, e))
  {
    var h := OnePublish(d);
    OnePublishIsHistory(d);
    assert [d] + [e] == [d, e];
    assert Begin(h[23], SecondBegun(d, e)[24], e);
    ExtendRun(h, SecondBegun(d, e)[24]);
  }

  /** After a failed read "no update" says nothing, even to a subscriber that remembers nothing: here one record is in
      place and none was taken. */
  method UnreadableSlot() returns (s: TensorSubscriber, update: bool, ghost look: Look)
    ensures fresh(s) && s.Valid() && s.seenSeqno == 0 && !update && look.read.None?
    ensures s.meta.Meta? && s.track.taken == 0 && Stored(s.meta.hist[s.meta.now]) == 1
  {
    s := new TensorSubscriber(Build(false, false, 0));
    var h := SecondBegun(Numbered(1), Numbered(2));
    SecondBegunIsHistory(Numbered(1), Numbered(2));
    var rc := AttachTo(s, h, false);
    update, look := AskAtTheEnd(s, h, false);
  }
}
