/** The two planes seen by one consumer: by the time a record can be read, its fence can be drained. */
module CrossPlane {
  import opened Machine
  import opened Descriptor
  import opened Seqlock
  import opened FenceRing
  import opened Wire
  import opened Sidecar
  import opened Publisher
  import opened Subscriber

  /** The kernel gives the receiver descriptor numbers of its own; everything else arrives as it was sent. */
  predicate SameButFds(sent: Message, got: Message)
  {
    match (sent, got)
    case (PoolMsg(h, fds, blob), PoolMsg(h', fds', blob')) => h == h' && |fds| == |fds'| && blob == blob'
    case (FenceMsg(f), FenceMsg(f')) => f.token == f'.token
    case _ => false
  }

  /** What was sent so far is a prefix of all that ever arrives. */
  ghost predicate Arrives(sent: seq<Message>, got: seq<Message>)
  {
    |sent| <= |got| && forall i :: 0 <= i < |sent| ==> SameButFds(sent[i], got[i])
  }

  /** A well-formed log stays one in the receiver's numbers, so what is proved of the client holds of what it gets. */
  lemma ArrivalIsFramed(stream: seq<Cell>, sent: seq<Message>, got: seq<Message>)
    requires Framed(stream, sent) && Arrives(sent, got) && |sent| == |got|
    ensures Framed(EncodeAll(got), got)
  {
    forall m | m in got ensures WellFormed(m) {
      var i :| 0 <= i < |got| && got[i] == m;
      assert WellFormed(sent[i]) && SameButFds(sent[i], got[i]);
    }
    assert SameButFds(sent[0], got[0]);
  }

  /** At history position p of the slot, the first `arrived` messages cover all that was written by then. */
  ghost predicate ArrivedBy(stamps: seq<nat>, p: nat, arrived: nat)
  {
    forall i :: 0 <= i < |stamps| && stamps[i] <= p ==> i < arrived
  }

  lemma {:induction false} FencesOfConcat(a: seq<Message>, b: seq<Message>)
    ensures FencesOf(a + b) == FencesOf(a) + FencesOf(b)
  {
    if b == [] {
      assert a + b == a;
    } else {
      var c, m := b[..|b| - 1], b[|b| - 1];
      assert (a + b)[..|a + b| - 1] == a + c;
      FencesOfConcat(a, c);
    }
  }

  /** The fence in message i is the store numbered by the fences before it. */
  lemma StoreNumber(msgs: seq<Message>, i: nat, at: nat)
    requires i < at <= |msgs| && msgs[i].FenceMsg?
    ensures var k := |FencesOf(msgs[..i])|;
            k < |FencesOf(msgs[..at])| && FencesOf(msgs[..at])[k] == msgs[i].fence
  {
    var a, b, c := msgs[..i], [msgs[i]], msgs[i + 1..at];
    assert msgs[..at] == a + (b + c);
    FencesOfConcat(a, b + c);
    FencesOfConcat(b, c);
    assert b[..0] == [];
  }

  // ------------------------------------------------------------------ the ring

  /** No newer store reuses the token of store k. */
  ghost predicate NotReused(stores: seq<Fence>, k: nat)
    requires k < |stores|
  {
    forall j :: k < j < |stores| ==> stores[j].token != stores[k].token
  }

  /** Store k is in the ring while fewer than 16 newer ones were made; while live tokens are distinct, a lookup of
      its token can find nothing else. */
  lemma LiveStore(stores: seq<Fence>, k: nat)
    requires k < |stores| && |stores| - k <= 16
    ensures stores[k] in LastStores(stores)
    ensures DistinctTokens(LastStores(stores)) ==>
      forall f :: f in LastStores(stores) && f.token == stores[k].token ==> f == stores[k]
  {
    var live := LastStores(stores);
    assert live[k - (|stores| - |live|)] == stores[k];
  }

  /** A token that no newer store reuses is live exactly while fewer than 16 newer stores were made. */
  lemma LiveIff(stores: seq<Fence>, k: nat)
    requires k < |stores| && NotReused(stores, k)
    ensures (exists f :: f in LastStores(stores) && f.token == stores[k].token) <==> |stores| - k <= 16
  {
    var live := LastStores(stores);
    var skipped := |stores| - |live|;
    assert forall q :: 0 <= q < |live| ==> live[q] == stores[skipped + q];
    if |stores| - k <= 16 {
      LiveStore(stores, k);
    }
  }

  /** The ring holds what was drained from this connection. */
  ghost predicate Collected(s: TensorSubscriber)
    reads s, s.client, s.fences
  {
    s.client.at <= |s.client.msgs| && s.fences.stores == FencesOf(s.client.msgs[..s.client.at])
  }

  /** It does from the moment a handshake succeeds; draining keeps it so. */
  lemma CollectedFromTheStart(s: TensorSubscriber)
    requires s.fences.stores == [] && s.client.at == 1 && s.client.msgs != [] && s.client.msgs[0].PoolMsg?
    ensures Collected(s)
  {
    assert s.client.msgs[..1][..0] == [];
  }

  // ------------------------------------------------------------------ one publisher, one consumer

  /** `s` is consumer c of `pub`: it reads pub's slot, and its socket brings what pub writes there, in its own
      descriptor numbers. `inSocket[p]` is how many messages are in the socket when the slot's history has reached
      position p. */
  ghost predicate ConsumerOf(s: TensorSubscriber, pub: TensorPublisher, c: nat, inSocket: seq<nat>)
    reads s, s.client, pub, pub.meta, pub.meta.desc, pub.server, pub.pool
  {
    && pub.Ordered() && pub.meta.Valid() && s.meta.Meta? && s.meta.hist == pub.meta.hist
    && c < |pub.server.logs| && Arrives(pub.server.logs[c], s.client.msgs)
    && |inSocket| == |pub.meta.hist|
    && forall p :: 0 <= p < |inSocket| ==> inSocket[p] <= |s.client.msgs| && ArrivedBy(pub.stamps[c], p, inSocket[p])
  }

  /** Record v of `pub` was published with a fence, when consumer c was already connected. */
  ghost predicate FencedFor(pub: TensorPublisher, v: int, c: nat)
    reads pub
  {
    1 <= v <= |pub.sends| && pub.sends[v - 1].Sent? && c < |pub.sends[v - 1].place|
  }

  /** Which message of its connection brings consumer c the fence of record v. */
  ghost function PlaceOf(pub: TensorPublisher, v: int, c: nat): (i: nat)
    reads pub
    requires FencedFor(pub, v, c)
  {
    pub.sends[v - 1].place[c]
  }

  /** Message i brings a fence with the given token. */
  predicate Carries(msgs: seq<Message>, i: nat, token: U64)
  {
    i < |msgs| && msgs[i].FenceMsg? && msgs[i].fence.token == token
  }

  /** The record read at position p was announced: its fence is a message this consumer can drain by then, and it is the
      fence the record names. */
  lemma FenceHasArrived(s: TensorSubscriber, pub: TensorPublisher, c: nat, inSocket: seq<nat>, p: nat, d: Words)
    requires ConsumerOf(s, pub, c, inSocket) && SlotHistory(pub.meta.hist)
    requires p < |pub.meta.hist| && Current(pub.meta.hist[p], d) && FencedFor(pub, Seqno(d), c)
    ensures NeedsFence(d) && Seqno(d) == Stored(pub.meta.hist[p])
    ensures var place := PlaceOf(pub, Seqno(d), c);
            place < inSocket[p] && Carries(s.client.msgs, place, FenceToken(d))
  {
    var h := pub.meta.hist;
    CurrentIsVersioned(h, p, d);
    CurrentIsStored(h, p, |h| - 1, d);
    var v := Seqno(d);
    var send := pub.sends[v - 1];
    assert FenceOf(send, pub.meta.published[v - 1]);
    assert FenceFirst(send, v, h, pub.server.logs, pub.stamps);
    assert WrittenBefore(send.fence, v, h, pub.server.logs[c], pub.stamps[c], send.place[c]);
    assert SameButFds(pub.server.logs[c][send.place[c]], s.client.msgs[send.place[c]]);
  }

  /** What a lookup of fence f, which was store k, gives. */
  ghost predicate Found(stores: seq<Fence>, k: nat, f: Fence, fd: int)
  {
    && k < |stores| && stores[k] == f
    && (|stores| - k <= 16 ==> f in LastStores(stores) && fd >= 0)
    && (|stores| - k <= 16 && DistinctTokens(LastStores(stores)) ==> fd == f.fd)
    && (NotReused(stores, k) ==> (fd >= 0 <==> |stores| - k <= 16))
  }

  lemma FoundStore(stores: seq<Fence>, k: nat, fd: int)
    requires k < |stores|
    requires fd == -1 <==> forall f :: f in LastStores(stores) ==> f.token != stores[k].token
    requires fd == -1 || (fd >= 0 && Fence(stores[k].token, fd) in LastStores(stores))
    ensures Found(stores, k, stores[k], fd)
  {
    if |stores| - k <= 16 {
      LiveStore(stores, k);
    }
    if NotReused(stores, k) {
      LiveIff(stores, k);
    }
  }

  lemma CollectedStep(msgs: seq<Message>, a: nat, b: nat)
    requires a <= b <= |msgs|
    ensures FencesOf(msgs[..b]) == FencesOf(msgs[..a]) + FencesOf(msgs[a..b])
  {
    FencesOfConcat(msgs[..a], msgs[a..b]);
    assert msgs[..b] == msgs[..a] + msgs[a..b];
  }

  lemma DrainedMore(msgs: seq<Message>, a: nat, b: nat, stores: seq<Fence>, stores': seq<Fence>)
    requires a <= b <= |msgs| && stores == FencesOf(msgs[..a]) && stores' == stores + FencesOf(msgs[a..b])
    ensures stores' == FencesOf(msgs[..b])
  {
    CollectedStep(msgs, a, b);
  }

  lemma FoundInDrained(msgs: seq<Message>, at: nat, place: nat, token: U64, stores: seq<Fence>, fd: int)
    requires at <= |msgs| && stores == FencesOf(msgs[..at]) && place < at && Carries(msgs, place, token)
    requires fd == -1 <==> forall f :: f in LastStores(stores) ==> f.token != token
    requires fd == -1 || (fd >= 0 && Fence(token, fd) in LastStores(stores))
    ensures Found(stores, |FencesOf(msgs[..place])|, msgs[place].fence, fd)
  {
    StoreNumber(msgs, place, at);
    FoundStore(stores, |FencesOf(msgs[..place])|, fd);
  }

  /** Drain what has arrived, every header in full, as they come in step. */
  method DrainArrived(s: TensorSubscriber, arrived: nat)
    requires s.Conserving() && s.Linked() && s.client.Synced() && !s.client.shut && Collected(s)
    requires arrived <= |s.client.msgs|
    modifies s.client`pos, s.client`at, s.client`shut, s`book, s.fences, s.fences.slots
    ensures s.Conserving() && s.Linked() && Collected(s) && s.client.at <= |s.client.msgs|
    ensures s.client.shut || (s.client.Synced() && arrived <= s.client.at)
  {
    ghost var msgs, a := s.client.msgs, s.client.at;
    var n := s.DrainInStep(arrived);
    DrainedMore(msgs, a, s.client.at, old(s.fences.stores), s.fences.stores);
  }

  /** Drain what has arrived, then look a token up. If message `place`, among what has arrived, is a fence with that
      token, then the lookup finds it as Found says, unless the connection ends. */
  method DrainAndLookup(s: TensorSubscriber, token: U64, arrived: nat, ghost place: nat) returns (fd: int)
    requires s.Conserving() && s.Linked() && s.client.Synced() && !s.client.shut && Collected(s)
    requires arrived <= |s.client.msgs|
    modifies s.client`pos, s.client`at, s.client`shut, s`book, s.fences, s.fences.slots
    ensures s.Conserving() && s.Linked() && Collected(s) && (s.client.shut || s.client.Synced())
    ensures fd == -1 <==> forall f :: f in LastStores(s.fences.stores) ==> f.token != token
    ensures place < arrived && Carries(s.client.msgs, place, token) && !s.client.shut ==>
      Found(s.fences.stores, |FencesOf(s.client.msgs[..place])|, s.client.msgs[place].fence, fd)
  {
    DrainArrived(s, arrived);
    fd := s.fences.Lookup(token);
    if place < s.client.at && Carries(s.client.msgs, place, token) {
      FoundInDrained(s.client.msgs, s.client.at, place, token, s.fences.stores, fd);
    }
  }

  /** Record d, with its fence announced to consumer c, is looked up in the ring: what DrainAndLookup found. */
  ghost predicate Resolved(s: TensorSubscriber, pub: TensorPublisher, c: nat, d: Words, fd: int)
    reads pub, s.client, s.fences
  {
    FencedFor(pub, Seqno(d), c) ==>
      var place := PlaceOf(pub, Seqno(d), c);
      && NeedsFence(d) && Carries(s.client.msgs, place, FenceToken(d))
      && (!s.client.shut ==>
            Found(s.fences.stores, |FencesOf(s.client.msgs[..place])|, s.client.msgs[place].fence, fd))
  }

  /** The second half: drain and look up the token of the record that was read. */
  method Resolve(s: TensorSubscriber, ghost pub: TensorPublisher, ghost c: nat, inSocket: seq<nat>, d: Words)
    returns (fd: int)
    requires s.Conserving() && s.Linked() && s.client.Synced() && !s.client.shut && Collected(s)
    requires ConsumerOf(s, pub, c, inSocket) && SlotHistory(pub.meta.hist)
    requires s.meta.now < |s.meta.hist| && Current(s.meta.hist[s.meta.now], d)
    modifies s.client`pos, s.client`at, s.client`shut, s`book, s.fences, s.fences.slots
    ensures s.Conserving() && s.Linked() && Collected(s) && (s.client.shut || s.client.Synced())
    ensures Resolved(s, pub, c, d, fd)
    ensures fd == -1 <==> forall f :: f in LastStores(s.fences.stores) ==> f.token != FenceToken(d)
  {
    ghost var place := 0;
    if FencedFor(pub, Seqno(d), c) {
      FenceHasArrived(s, pub, c, inSocket, s.meta.now, d);
      place := PlaceOf(pub, Seqno(d), c);
    }
    fd := DrainAndLookup(s, FenceToken(d), inSocket[s.meta.now], place);
  }

  /** A consumer of `pub` reads the slot, drains and looks up the token of the record it has read. If that record was
      published with a fence when the consumer was already connected, the fence is found, unless the connection ends:
      with the descriptor that came with it, if fewer than 16 newer fences were stored and live tokens are distinct. A
      fence found is no longer in the way of handing the record out. */
  method ReadDrainLookup(s: TensorSubscriber, ghost pub: TensorPublisher, ghost c: nat, inSocket: seq<nat>,
                         maxRetry: int, clock: U64) returns (read: Option<Words>, fd: int)
    requires s.Valid() && s.client.Synced() && !s.client.shut && Collected(s)
    requires ConsumerOf(s, pub, c, inSocket)
    modifies s, s.client`pos, s.client`at, s.client`shut, s.fences, s.fences.slots
    ensures s.Valid() && Collected(s) && (s.client.shut || s.client.Synced()) && ConsumerOf(s, pub, c, inSocket)
    ensures read.Some? ==> s.meta.Meta? && s.meta.now < |s.meta.hist| && Current(s.meta.hist[s.meta.now], read.value)
    ensures read.Some? ==> Resolved(s, pub, c, read.value, fd)
    ensures read.Some? && fd >= 0 ==>
      (Acceptable(read.value, s.pool, s.fences.stores) <==>
         Generation(read.value) == s.pool.generation
         && BoHandle(read.value) < if s.pool.deviceBacked then |s.pool.devicePtrs| else |s.pool.views|)
  {
    var view, isNew;
    ghost var failed;
    view, isNew, read, failed := s.LatestView(maxRetry, clock);
    fd := -1;
    if read.Some? {
      fd := Resolve(s, pub, c, inSocket, read.value);
    }
  }

  /** A subscriber attaches to a publisher and is its consumer c from then on: a handshake over what pub writes to
      connection c, as it arrives (`got`), onto pub's slot. This is where the precondition of ReadDrainLookup comes
      from; reading and draining keep it. */
  method AttachToPublisher(s: TensorSubscriber, ghost pub: TensorPublisher, ghost c: nat, got: seq<Message>,
                           inSocket: seq<nat>, net: Network, h: seq<Slot>, start: nat, notifyField: bool)
    returns (rc: int)
    requires s.Valid() && pub.Valid() && |pub.meta.published| < TWO_64 && h == pub.meta.hist && start < |h|
    requires c < |pub.server.logs| && |got| == |pub.server.logs[c]| && Arrives(pub.server.logs[c], got)
    requires FreshCells(s.book.received, EncodeAll(got))
    requires |inSocket| == |h|
    requires forall p :: 0 <= p < |inSocket| ==> inSocket[p] <= |got| && ArrivedBy(pub.stamps[c], p, inSocket[p])
    modifies s, s.client, s.fences, s.fences.slots
    ensures s.Valid()
    ensures rc == 0 ==> s.client.Synced() && !s.client.shut && Collected(s) && ConsumerOf(s, pub, c, inSocket)
  {
    pub.FeedsSubscribers();
    ArrivalIsFramed(pub.server.streams[c], pub.server.logs[c], got);
    rc := s.WaitHandshake(EncodeAll(got), got, net, true, h, start, notifyField, false);
    if rc == 0 { CollectedFromTheStart(s); }
  }

  // ------------------------------------------------------------------ following a publisher

  ghost predicate NonDecreasing(s: seq<nat>) { forall i, j :: 0 <= i < j < |s| ==> s[i] <= s[j] }

  method DrainAndRead(s: TensorSubscriber, drains: bool, maxRetry: int, clock: U64) returns (seqno: nat)
    requires s.Valid() && s.meta.Meta?
    modifies s, s.client, s.fences, s.fences.slots
    ensures s.Valid() && s.meta.Meta? && s.meta.hist == old(s.meta.hist)
    ensures old(s.track.returned) <= s.track.returned && (seqno == 0 || seqno == s.track.returned)
  {
    if drains {
      var n;
      ghost var starts, stop;
      var cut: Option<nat> := *;
      n, starts, stop := s.DrainFences(0, cut);
    }
    var view, isNew, read;
    ghost var failed;
    view, isNew, read, failed := s.LatestView(maxRetry, clock);
    seqno := if view.Some? then Seqno(view.value.frame) else 0;
  }

  method DrainAndReadAll(s: TensorSubscriber, calls: seq<(bool, int, U64)>) returns (seqnos: seq<nat>)
    requires s.Valid() && s.meta.Meta?
    modifies s, s.client, s.fences, s.fences.slots
    ensures s.Valid() && s.meta.Meta? && s.meta.hist == old(s.meta.hist) && NonDecreasing(seqnos)
    ensures forall i :: 0 <= i < |seqnos| ==> 1 <= seqnos[i] <= s.track.returned
  {
    seqnos := [];
    for k := 0 to |calls|
      invariant s.Valid() && s.meta.Meta? && s.meta.hist == old(s.meta.hist)
      invariant NonDecreasing(seqnos) && forall i :: 0 <= i < |seqnos| ==> 1 <= seqnos[i] <= s.track.returned
    {
      var seqno := DrainAndRead(s, calls[k].0, calls[k].1, calls[k].2);
      if seqno > 0 { seqnos := seqnos + [seqno]; }
    }
  }

  method AttachToSlot(s: TensorSubscriber, stream: seq<Cell>, ghost log: seq<Message>, net: Network,
                      h: seq<Slot>, start: nat) returns (rc: int)
    requires s.Valid() && Framed(stream, log) && FreshCells(s.book.received, stream)
    requires SlotHistory(h) && start < |h|
    modifies s, s.client, s.fences, s.fences.slots
    ensures s.Valid() && (rc == 0 ==> s.meta == Meta(h, start, true))
  {
    rc := s.WaitHandshake(stream, log, net, true, h, start, true, false);
  }

  lemma ReturnedWasPublished(s: TensorSubscriber, h: seq<Slot>)
    requires s.Reading() && s.meta.Meta? && s.meta.hist == h
    ensures s.track.returned <= |h[|h| - 1].published|
  {
    Monotone(h, s.meta.now, |h| - 1);
  }

  method FollowSlot(s: TensorSubscriber, stream: seq<Cell>, ghost log: seq<Message>, net: Network,
                    h: seq<Slot>, start: nat, calls: seq<(bool, int, U64)>) returns (rc: int, seqnos: seq<nat>)
    requires s.Valid() && Framed(stream, log) && FreshCells(s.book.received, stream)
    requires SlotHistory(h) && start < |h|
    modifies s, s.client, s.fences, s.fences.slots
    ensures s.Valid() && NonDecreasing(seqnos)
    ensures forall i :: 0 <= i < |seqnos| ==> 1 <= seqnos[i] <= |h[|h| - 1].published|
  {
    seqnos := [];
    rc := AttachToSlot(s, stream, log, net, h, start);
    if rc == 0 {
      seqnos := DrainAndReadAll(s, calls);
      ReturnedWasPublished(s, h);
    }
  }

  /** A subscriber attaches to a publisher's slot, drains and reads at will: the seqnos it is handed, fallbacks
      included, never decrease, and each is that of a record published so far. (0 stands for a read that hands out
      nothing.) */
  method Follow(s: TensorSubscriber, ghost pub: TensorPublisher, stream: seq<Cell>, ghost log: seq<Message>,
                net: Network, h: seq<Slot>, start: nat, calls: seq<(bool, int, U64)>)
    returns (rc: int, seqnos: seq<nat>)
    requires s.Valid() && Framed(stream, log) && FreshCells(s.book.received, stream)
    requires pub.Counting() && h == pub.meta.hist && |pub.meta.published| < TWO_64 && start < |h|
    modifies s, s.client, s.fences, s.fences.slots
    ensures s.Valid() && NonDecreasing(seqnos)
    ensures forall i :: 0 <= i < |seqnos| ==> 1 <= seqnos[i] <= |h[|h| - 1].published|
  {
    pub.FeedsSubscribers();
    rc, seqnos := FollowSlot(s, stream, log, net, h, start, calls);
  }
}
