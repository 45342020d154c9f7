/** TensorPublisher: what a publish does on both planes, in which order, and what it does not spend when it refuses. */
module Publisher {
  import opened Machine
  import opened Descriptor
  import opened Seqlock
  import opened Channel
  import opened FenceRing
  import opened Wire
  import opened Sidecar
  import opened Pool

  // ------------------------------------------------------------------ what holds of the published records

  /** Nothing unsound is ever readable. */
  ghost predicate AllAccepted(published: seq<Words>, bufferSize: U64)
  {
    forall v :: 0 <= v < |published| ==> Accepted(Unpack(published[v]), bufferSize)
  }

  /** The producer-stamped fields. */
  function StampedBy(d: TensorDescriptor, seqno: U64, generation: nat, bufferIndex: int, now: U64): TensorDescriptor
  {
    d.(seqno := seqno, poolGeneration := Wrap64(generation), publishTs := now,
       boHandle := if bufferIndex >= 0 then Wrap64(bufferIndex) else 0)
  }

  lemma StampedIsAccepted(d: TensorDescriptor, seqno: U64, generation: nat, bufferIndex: int, now: U64, size: U64)
    requires Accepted(d, size)
    ensures Accepted(Unpack(Pack(StampedBy(d, seqno, generation, bufferIndex, now))), size)
  {
    var s := StampedBy(d, seqno, generation, bufferIndex, now);
    PackUnpack(s);
    assert Rows(s) == Rows(d) && PackedRow(s) == PackedRow(d);
  }

  lemma OneMoreRecord(published: seq<Words>, w: Words)
    requires Versioned(published) && Seqno(w) == Wrap64(|published| + 1)
    ensures Versioned(published + [w])
  {
  }

  lemma OneMoreAccepted(published: seq<Words>, d: TensorDescriptor, size: U64, seqno: U64, generation: nat,
                        bufferIndex: int, now: U64)
    requires AllAccepted(published, size) && Accepted(d, size)
    ensures AllAccepted(published + [Pack(StampedBy(d, seqno, generation, bufferIndex, now))], size)
  {
    StampedIsAccepted(d, seqno, generation, bufferIndex, now, size);
  }

  // ------------------------------------------------------------------ order across the two planes

  /** What went out on the sockets for one publish: nothing, or its fence, as message place[c] of connection c. */
  datatype Sent = NoFence | Sent(fence: Fence, place: seq<nat>)

  /** The fence sent for a record is the one the record names. */
  ghost predicate FenceOf(send: Sent, w: Words)
  {
    send.Sent? ==> NeedsFence(w) && send.fence.token == FenceToken(w)
  }

  ghost predicate FencesMatch(sends: seq<Sent>, published: seq<Words>)
  {
    |sends| == |published| && forall v :: 0 <= v < |sends| ==> FenceOf(sends[v], published[v])
  }

  lemma OneMoreFence(sends: seq<Sent>, published: seq<Words>, send: Sent, w: Words)
    requires FencesMatch(sends, published) && FenceOf(send, w)
    ensures FencesMatch(sends + [send], published + [w])
  {
  }

  lemma FenceOfDraft(d: TensorDescriptor, send: Sent)
    requires send.Sent? ==> d.NeedsFence() && send.fence.token == d.fenceToken
    ensures FenceOf(send, Pack(d))
  {
    FieldsOfWords(d);
  }

  /** For every message of every connection, how long the slot's history was when it was written. */
  type Stamps = seq<seq<nat>>

  ghost predicate StampsFit(stamps: Stamps, logs: seq<seq<Message>>, now: nat)
  {
    && |stamps| == |logs|
    && forall c :: 0 <= c < |logs| ==>
         |stamps[c]| == |logs[c]| && forall i :: 0 <= i < |stamps[c]| ==> stamps[c][i] <= now
  }

  /** Message i of a connection is the fence of record `version`, and was written before any state of the slot from
      which that record, or a later one, can be read. */
  ghost predicate WrittenBefore(fence: Fence, version: nat, hist: seq<Slot>, log: seq<Message>,
                                stamps: seq<nat>, i: nat)
  {
    && i < |log| && i < |stamps| && log[i] == FenceMsg(fence)
    && forall q :: 0 <= q < |hist| && version <= Stored(hist[q]) ==> stamps[i] <= q
  }

  ghost predicate FenceFirst(send: Sent, version: nat, hist: seq<Slot>, logs: seq<seq<Message>>, stamps: Stamps)
  {
    send.Sent? ==>
      && |send.place| <= |logs| && |send.place| <= |stamps|
      && forall c :: 0 <= c < |send.place| ==>
           WrittenBefore(send.fence, version, hist, logs[c], stamps[c], send.place[c])
  }

  /** More was written, and more happened to the slot. */
  ghost predicate Grown<T>(a: seq<seq<T>>, b: seq<seq<T>>)
  {
    |a| <= |b| && forall c :: 0 <= c < |a| ==> a[c] <= b[c]
  }

  function Restamp(stamps: Stamps, logs: seq<seq<Message>>, now: nat): (r: Stamps)
    ensures |r| == |logs|
  {
    seq(|logs|, c requires 0 <= c < |logs| =>
      var was := if c < |stamps| then stamps[c] else [];
      if |was| <= |logs[c]| then was + seq(|logs[c]| - |was|, _ => now) else was)
  }

  /** The stamps fit the messages, and every fence sent precedes its record. */
  ghost predicate OrderedOn(sends: seq<Sent>, stamps: Stamps, hist: seq<Slot>, logs: seq<seq<Message>>)
  {
    && StampsFit(stamps, logs, |hist|)
    && forall v :: 0 <= v < |sends| ==> FenceFirst(sends[v], v + 1, hist, logs, stamps)
  }

  lemma SentStaysFirst(send: Sent, version: nat, hist: seq<Slot>, logs: seq<seq<Message>>, stamps: Stamps,
                       logs': seq<seq<Message>>, stamps': Stamps)
    requires FenceFirst(send, version, hist, logs, stamps) && Grown(logs, logs') && Grown(stamps, stamps')
    ensures FenceFirst(send, version, hist, logs', stamps')
  {
    if send.Sent? {
      forall c | 0 <= c < |send.place|
        ensures WrittenBefore(send.fence, version, hist, logs'[c], stamps'[c], send.place[c])
      {
        assert WrittenBefore(send.fence, version, hist, logs[c], stamps[c], send.place[c]);
      }
    }
  }

  lemma AfterWrite(sends: seq<Sent>, stamps: Stamps, hist: seq<Slot>, logs: seq<seq<Message>>, logs': seq<seq<Message>>)
    requires OrderedOn(sends, stamps, hist, logs) && Grown(logs, logs')
    ensures OrderedOn(sends, Restamp(stamps, logs', |hist|), hist, logs')
  {
    var stamps' := Restamp(stamps, logs', |hist|);
    assert Grown(stamps, stamps');
    forall v | 0 <= v < |sends| ensures FenceFirst(sends[v], v + 1, hist, logs', stamps') {
      SentStaysFirst(sends[v], v + 1, hist, logs, stamps, logs', stamps');
    }
  }

  function LengthsOf(logs: seq<seq<Message>>): (ns: seq<nat>)
    ensures |ns| == |logs| && forall c :: 0 <= c < |logs| ==> ns[c] == |logs[c]|
  {
    seq(|logs|, c requires 0 <= c < |logs| => |logs[c]|)
  }

  /** The fence just appended to every connection precedes the record about to be published. */
  lemma AfterFence(sends: seq<Sent>, stamps: Stamps, hist: seq<Slot>, logs: seq<seq<Message>>, logs': seq<seq<Message>>,
                   fence: Fence)
    requires OrderedOn(sends, stamps, hist, logs)
    requires SlotRun(hist) && hist[|hist| - 1].phase == Idle && |sends| == |hist[|hist| - 1].published|
    requires |logs'| == |logs| && forall c :: 0 <= c < |logs| ==> logs'[c] == logs[c] + [FenceMsg(fence)]
    ensures Grown(logs, logs')
    ensures OrderedOn(sends, Restamp(stamps, logs', |hist|), hist, logs')
    ensures FenceFirst(Sent(fence, LengthsOf(logs)), |sends| + 1, hist, logs', Restamp(stamps, logs', |hist|))
  {
    AfterWrite(sends, stamps, hist, logs, logs');
    forall q | 0 <= q < |hist| ensures Stored(hist[q]) <= |sends| {
      Monotone(hist, q, |hist| - 1);
    }
  }

  lemma SlotMovesOn(send: Sent, version: nat, hist: seq<Slot>, hist': seq<Slot>, logs: seq<seq<Message>>,
                    stamps: Stamps)
    requires FenceFirst(send, version, hist, logs, stamps) && StampsFit(stamps, logs, |hist|) && hist <= hist'
    ensures FenceFirst(send, version, hist', logs, stamps)
  {
    if send.Sent? {
      forall c | 0 <= c < |send.place|
        ensures WrittenBefore(send.fence, version, hist', logs[c], stamps[c], send.place[c])
      {
        assert WrittenBefore(send.fence, version, hist, logs[c], stamps[c], send.place[c]);
      }
    }
  }

  lemma AfterPublish(sends: seq<Sent>, stamps: Stamps, hist: seq<Slot>, logs: seq<seq<Message>>,
                     send: Sent, hist': seq<Slot>)
    requires OrderedOn(sends, stamps, hist, logs) && hist <= hist'
    requires FenceFirst(send, |sends| + 1, hist, logs, stamps)
    ensures OrderedOn(sends + [send], stamps, hist', logs)
  {
    var all := sends + [send];
    forall v | 0 <= v < |all| ensures FenceFirst(all[v], v + 1, hist', logs, stamps) {
      SlotMovesOn(all[v], v + 1, hist, hist', logs, stamps);
    }
  }

  // ------------------------------------------------------------------ the class

  /** One acquire: the buffer it handed out of a ring of `depth`, when, and when that buffer was published, if it
      was, as record number `version`. */
  datatype Turn = Turn(depth: nat, buffer: nat, acquired: int, published: Option<int>, version: nat)

  ghost predicate TurnOf(t: Turn, k: nat) { t.depth > 0 && t.buffer == k % t.depth }

  ghost predicate RoundRobin(turns: seq<Turn>)
  {
    forall k :: 0 <= k < |turns| ==> TurnOf(turns[k], k)
  }

  /** The record published for a turn names the turn's buffer. */
  ghost predicate NamesBuffer(t: Turn, published: seq<Words>)
  {
    && t.buffer < TWO_64
    && (t.published.Some? ==> 1 <= t.version <= |published| && BoHandle(published[t.version - 1]) == t.buffer)
  }

  /** Every published turn has its record, and later turns have later ones. */
  ghost predicate TurnsMatch(turns: seq<Turn>, published: seq<Words>)
  {
    && (forall k :: 0 <= k < |turns| ==> NamesBuffer(turns[k], published))
    && forall j, k :: 0 <= j < k < |turns| && turns[j].published.Some? && turns[k].published.Some? ==>
         turns[j].version < turns[k].version
  }

  /** Record `version` is published with the given index: it belongs to the last turn if it is that turn's index. */
  ghost function WithPublished(turns: seq<Turn>, bufferIndex: int, at: int, version: nat): (r: seq<Turn>)
    ensures |r| == |turns| && (RoundRobin(turns) ==> RoundRobin(r))
  {
    var n := |turns| - 1;
    if turns != [] && turns[n].buffer == bufferIndex then
      turns[n := turns[n].(published := Some(at), version := version)]
    else turns
  }

  lemma TurnsAfterAcquire(turns: seq<Turn>, published: seq<Words>, t: Turn)
    requires RoundRobin(turns) && TurnsMatch(turns, published) && TurnOf(t, |turns|)
    requires t.published == None && t.buffer < TWO_64
    ensures RoundRobin(turns + [t]) && TurnsMatch(turns + [t], published)
  {
  }

  lemma TurnsAfterPublish(turns: seq<Turn>, published: seq<Words>, d: TensorDescriptor, bufferIndex: int, at: int)
    requires RoundRobin(turns) && TurnsMatch(turns, published)
    requires d.boHandle == if bufferIndex >= 0 then Wrap64(bufferIndex) else 0
    ensures TurnsMatch(WithPublished(turns, bufferIndex, at, |published| + 1), published + [Pack(d)])
  {
    var n := |turns| - 1;
    assert turns != [] ==> NamesBuffer(turns[n], published);
    var after := WithPublished(turns, bufferIndex, at, |published| + 1);
    forall k | 0 <= k < |after| ensures NamesBuffer(after[k], published + [Pack(d)]) {
      assert NamesBuffer(turns[k], published);
    }
    forall j, k | 0 <= j < k < |after| && after[j].published.Some? && after[k].published.Some?
      ensures after[j].version < after[k].version
    {
      assert NamesBuffer(turns[j], published);
    }
  }

  class TensorPublisher {
    const pool: TensorPool
    const server: SidecarServer
    const meta: MetadataChannel
    const bufferSize: U64      // as it was when the publisher was made

    var staging: TensorDescriptor
    var nextIndex: nat
    var seqno: U64
    var rejected: nat
    var cachedGen: Option<nat>

    ghost var sends: seq<Sent>
    ghost var stamps: Stamps
    ghost var turns: seq<Turn>

    /** The metadata plane. */
    ghost predicate Records()
      reads meta, meta.desc
    {
      meta.Valid() && Versioned(meta.published)
    }

    ghost predicate Counting()
      reads this`seqno, meta, meta.desc
    {
      Records() && seqno == Wrap64(|meta.published|)
    }

    /** The descriptor plane, against the history of the metadata plane. */
    ghost predicate Ordered()
      reads this`sends, this`stamps, server`header, server`ext, server`streams, server`logs, meta`hist, meta`published
    {
      && server.Valid() && FencesMatch(sends, meta.published)
      && OrderedOn(sends, stamps, meta.hist, server.logs)
    }

    /** What a consumer that connects now must be sent. */
    ghost function Current(): Message
      reads pool`shareFds, pool`importParams, pool`generation
    {
      var blob := if |pool.importParams| <= MAX_EXT then pool.importParams else [];
      PoolMsg(PoolHeader(pool.backend, |blob|, WIRE_VERSION, Wrap32(pool.generation),
                         Wrap32(|pool.shareFds|), bufferSize), pool.shareFds, blob)
    }

    /** The cached bundle is the pool's, unless the pool was reallocated since. */
    ghost predicate Cached()
      reads this`cachedGen, server`header, server`poolFds, server`ext, server`cached, pool
    {
      && pool.Valid()
      && (cachedGen.Some? ==> server.cached && cachedGen.value <= pool.generation)
      && (cachedGen == Some(pool.generation) ==> server.Bundle() == Current())
    }

    ghost predicate Valid()
      reads this, meta, meta.desc, server, pool
    {
      && Counting() && Ordered() && Cached() && AllAccepted(meta.published, bufferSize)
      && nextIndex == |turns| && RoundRobin(turns) && TurnsMatch(turns, meta.published)
    }

    constructor (p: TensorPool, size: U64)
      requires p.Valid()
      ensures Valid() && pool == p && bufferSize == size && rejected == 0 && turns == []
      ensures fresh(meta) && fresh(meta.desc) && fresh(server) && meta.published == []
    {
      pool, bufferSize := p, size;
      server := new SidecarServer();
      meta := new MetadataChannel();
      staging, nextIndex, seqno, rejected, cachedGen := CLEARED, 0, 0, 0, None;
      sends, stamps, turns := [], [], [];
    }

    /** Between publishes guard, notify and seqno all count the accepted publishes, and nothing else. */
    lemma Coupled()
      requires Counting()
      ensures meta.guard == 2 * |meta.published| && meta.notify == |meta.published|
      ensures |meta.published| < TWO_64 ==>
        && seqno == |meta.published| && SlotHistory(meta.hist)
        && forall v :: 0 <= v < |meta.published| ==> Seqno(meta.published[v]) == v + 1
    {
      RunInv(meta.hist, |meta.hist| - 1);
    }

    /** So its slot is what subscribers assume of one, until seqnos wrap. */
    lemma FeedsSubscribers()
      requires Counting() && |meta.published| < TWO_64
      ensures SlotHistory(meta.hist)
    {
      Coupled();
    }

    /** cache_pool. */
    method CachePool(force: bool)
      requires Cached() && server.Valid()
      modifies this`cachedGen, server`poolFds, server`header, server`ext, server`cached
      ensures Cached() && server.Valid() && server.cached
      ensures server.Bundle() == Current()
    {
      if force || cachedGen != Some(pool.generation) {
        var carried := server.SetPool(pool.shareFds, Wrap32(pool.generation), bufferSize, WIRE_VERSION,
                                      pool.backend, pool.importParams);
        cachedGen := Some(pool.generation);
      }
    }

    /** acquire_descriptor: the next buffer of the ring, whether or not the last one was ever published. */
    method AcquireDescriptor(ghost at: int) returns (index: int)
      requires Valid()
      modifies this`staging, this`nextIndex, this`turns
      ensures Valid()
      ensures index == -1 <==> pool.shareFds == []
      ensures index == -1 ==> nextIndex == old(nextIndex) && staging == old(staging) && turns == old(turns)
      ensures index != -1 ==> 0 <= index < |pool.shareFds| && nextIndex == old(nextIndex) + 1
      ensures index != -1 ==> turns == old(turns) + [Turn(|pool.shareFds|, index, at, None, 0)]
      ensures index != -1 ==>
        staging == CLEARED.(boHandle := index, poolGeneration := Wrap64(pool.generation))
    {
      var n := |pool.shareFds|;
      if n == 0 { return -1; }
      index := nextIndex % n;
      nextIndex := nextIndex + 1;
      staging := CLEARED.(boHandle := index, poolGeneration := Wrap64(pool.generation));
      TurnsAfterAcquire(turns, meta.published, Turn(n, index, at, None, 0));
      turns := turns + [Turn(n, index, at, None, 0)];
    }

    /** What was written to the sockets since they held `logs` is stamped with the present. */
    ghost method StampNew(logs: seq<seq<Message>>)
      requires server.Valid() && FencesMatch(sends, meta.published)
      requires OrderedOn(sends, stamps, meta.hist, logs) && Grown(logs, server.logs)
      modifies this`stamps
      ensures Ordered() && stamps == Restamp(old(stamps), server.logs, |meta.hist|)
    {
      AfterWrite(sends, stamps, meta.hist, logs, server.logs);
      stamps := Restamp(stamps, server.logs, |meta.hist|);
    }

    /** The fence goes out to every connected consumer, when there is one to send. */
    method SendFence(syncFd: int) returns (ghost send: Sent)
      requires meta.Valid() && Ordered()
      modifies this`stamps, server`streams, server`logs
      ensures Ordered() && FenceFirst(send, |meta.published| + 1, meta.hist, server.logs, stamps)
      ensures Grown(old(server.logs), server.logs) && |server.logs| == |old(server.logs)|
      ensures send == if syncFd >= 0 && staging.NeedsFence()
                      then Sent(Fence(staging.fenceToken, syncFd), LengthsOf(old(server.logs))) else NoFence
    {
      send := NoFence;
      if syncFd >= 0 && staging.NeedsFence() {
        ghost var logs := server.logs;
        var n := server.BroadcastSyncFence(staging.fenceToken, syncFd);
        AfterFence(sends, stamps, meta.hist, logs, server.logs, Fence(staging.fenceToken, syncFd));
        stamps := Restamp(stamps, server.logs, |meta.hist|);
        send := Sent(Fence(staging.fenceToken, syncFd), LengthsOf(logs));
      }
    }

    /** The stamped record becomes readable. */
    method PublishRecord(ghost send: Sent)
      requires Records() && Ordered()
      requires send.Sent? ==> staging.NeedsFence() && send.fence.token == staging.fenceToken
      requires FenceFirst(send, |meta.published| + 1, meta.hist, server.logs, stamps)
      requires staging.seqno == Wrap64(|meta.published| + 1)
      modifies this`sends, meta, meta.desc
      ensures Records() && Ordered()
      ensures meta.published == old(meta.published) + [Pack(staging)] && sends == old(sends) + [send]
      ensures old(meta.hist) < meta.hist
    {
      ghost var hist := meta.hist;
      OneMoreRecord(meta.published, Pack(staging));
      FenceOfDraft(staging, send);
      OneMoreFence(sends, meta.published, send, Pack(staging));
      var woken := meta.Publish(Pack(staging));
      AfterPublish(sends, stamps, hist, server.logs, send, meta.hist);
      sends := sends + [send];
    }

    /** The consumers of server.logs from number `first` on were sent the current bundle, and nothing else yet. */
    ghost predicate JustJoined(first: nat)
      reads server`logs, pool`shareFds, pool`importParams, pool`generation
    {
      forall c :: first <= c < |server.logs| ==> server.logs[c] == [Current()]
    }

    /** Consumers that connected in the meantime get the current bundle. */
    method AcceptWaiting(pending: nat, breaks: bool) returns (rc: int)
      requires Ordered() && Cached() && server.cached && server.Bundle() == Current()
      modifies this`stamps, server`streams, server`logs
      ensures Ordered() && Cached()
      ensures rc == if breaks || (pending > 0 && |pool.shareFds| > MAX_FDS) then -1 else pending
      ensures old(server.logs) <= server.logs
      ensures |server.logs| == |old(server.logs)| + if |pool.shareFds| > MAX_FDS then 0 else pending
      ensures JustJoined(|old(server.logs)|)
    {
      ghost var logs := server.logs;
      rc := server.AcceptAndHandshake(pending, breaks);
      StampNew(logs);
    }

    method PickUp(pending: nat, breaks: bool) returns (rc: int)
      requires Ordered() && Cached()
      modifies this`cachedGen, this`stamps, server
      ensures Ordered() && Cached()
      ensures rc == if breaks || (pending > 0 && |pool.shareFds| > MAX_FDS) then -1 else pending
      ensures old(server.logs) <= server.logs
      ensures |server.logs| == |old(server.logs)| + if |pool.shareFds| > MAX_FDS then 0 else pending
      ensures JustJoined(|old(server.logs)|)
    {
      CachePool(false);
      rc := AcceptWaiting(pending, breaks);
    }

    /** handshake_pool. */
    method HandshakePool(pending: nat, breaks: bool) returns (rc: int)
      requires Valid()
      modifies this`cachedGen, this`stamps, server
      ensures Valid() && rc == if breaks || (pending > 0 && |pool.shareFds| > MAX_FDS) then -1 else pending
      ensures old(server.logs) <= server.logs
      ensures |server.logs| == |old(server.logs)| + if |pool.shareFds| > MAX_FDS then 0 else pending
      ensures JustJoined(|old(server.logs)|)
    {
      rc := PickUp(pending, breaks);
    }

    /** publish() once the descriptor has passed: stamp it, send the fence, publish the record, in that order. */
    method Emit(bufferIndex: int, syncFd: int, now: U64)
      requires Counting() && Ordered()
      modifies this`staging, this`seqno, this`sends, this`stamps, server`streams, server`logs, meta, meta.desc
      ensures Counting() && Ordered()
      ensures seqno == Wrap64(old(seqno) + 1)
      ensures staging == StampedBy(old(staging), seqno, pool.generation, bufferIndex, now)
      ensures meta.published == old(meta.published) + [Pack(staging)] && old(meta.hist) < meta.hist
      ensures Grown(old(server.logs), server.logs) && |server.logs| == |old(server.logs)|
      ensures sends == old(sends) + [
        if syncFd >= 0 && staging.NeedsFence() then Sent(Fence(staging.fenceToken, syncFd), LengthsOf(old(server.logs)))
        else NoFence]
    {
      seqno := Wrap64(seqno + 1);
      staging := StampedBy(staging, seqno, pool.generation, bufferIndex, now);
      ghost var send := SendFence(syncFd);
      PublishRecord(send);
    }

    /** All that publish() does with a descriptor that passed, but for what its passing says of the record. */
    method EmitAndPickUp(bufferIndex: int, syncFd: int, now: U64, pending: nat, breaks: bool)
      requires Counting() && Ordered() && Cached()
      modifies this`staging, this`seqno, this`sends, this`stamps, this`cachedGen, server, meta, meta.desc
      ensures Counting() && Ordered() && Cached()
      ensures seqno == Wrap64(old(seqno) + 1)
      ensures staging == StampedBy(old(staging), seqno, pool.generation, bufferIndex, now)
      ensures meta.published == old(meta.published) + [Pack(staging)] && old(meta.hist) < meta.hist
      ensures sends == old(sends) + [
        if syncFd >= 0 && staging.NeedsFence() then Sent(Fence(staging.fenceToken, syncFd), LengthsOf(old(server.logs)))
        else NoFence]
      ensures Grown(old(server.logs), server.logs) && JustJoined(|old(server.logs)|)
    {
      Emit(bufferIndex, syncFd, now);
      var accepted := PickUp(pending, breaks);
    }

    method Deliver(bufferIndex: int, syncFd: int, now: U64, pending: nat, breaks: bool)
      requires Counting() && Ordered() && Cached() && AllAccepted(meta.published, bufferSize)
      requires Accepted(staging, bufferSize)
      modifies this`staging, this`seqno, this`sends, this`stamps, this`cachedGen, server, meta, meta.desc
      ensures Counting() && Ordered() && Cached() && AllAccepted(meta.published, bufferSize)
      ensures seqno == Wrap64(old(seqno) + 1)
      ensures staging == StampedBy(old(staging), seqno, pool.generation, bufferIndex, now)
      ensures meta.published == old(meta.published) + [Pack(staging)] && old(meta.hist) < meta.hist
      ensures sends == old(sends) + [
        if syncFd >= 0 && staging.NeedsFence() then Sent(Fence(staging.fenceToken, syncFd), LengthsOf(old(server.logs)))
        else NoFence]
      ensures Grown(old(server.logs), server.logs) && JustJoined(|old(server.logs)|)
    {
      OneMoreAccepted(meta.published, staging, bufferSize, Wrap64(seqno + 1), pool.generation, bufferIndex, now);
      EmitAndPickUp(bufferIndex, syncFd, now, pending, breaks);
    }

    /** The record just published is booked to the turn it belongs to. */
    ghost method CloseTurn(bufferIndex: int, at: int, before: seq<Words>)
      requires RoundRobin(turns) && TurnsMatch(turns, before) && meta.published == before + [Pack(staging)]
      requires staging.boHandle == if bufferIndex >= 0 then Wrap64(bufferIndex) else 0
      modifies this`turns
      ensures RoundRobin(turns) && TurnsMatch(turns, meta.published)
      ensures turns == WithPublished(old(turns), bufferIndex, at, |meta.published|)
    {
      TurnsAfterPublish(turns, before, staging, bufferIndex, at);
      turns := WithPublished(turns, bufferIndex, at, |meta.published|);
    }

    /** publish. `at` is when; the turn it belongs to is the last acquire's, if the caller passes that one's index. */
    method Publish(bufferIndex: int, syncFd: int, now: U64, pending: nat, breaks: bool, ghost at: int) returns (rc: int)
      requires Valid()
      modifies this, server, meta, meta.desc
      ensures Valid() && nextIndex == old(nextIndex)
      ensures rc == if Accepted(old(staging), bufferSize) then 0 else -1
      // A refused publish is counted, and leaves everything else as it was: no seqno, no message, no store.
      ensures rc == -1 ==> rejected == old(rejected) + 1 && seqno == old(seqno) && staging == old(staging)
      ensures rc == -1 ==> sends == old(sends) && stamps == old(stamps) && turns == old(turns)
      ensures rc == -1 ==> unchanged(server) && unchanged(meta) && unchanged(meta.desc)
      // An accepted one takes the next seqno and is what the slot now holds.
      ensures rc == 0 ==> rejected == old(rejected) && old(meta.hist) < meta.hist
      ensures rc == 0 ==> meta.published == old(meta.published) + [Pack(staging)]
      ensures rc == 0 ==> staging == StampedBy(old(staging), seqno, pool.generation, bufferIndex, now)
      ensures rc == 0 ==> sends == old(sends) + [
        if syncFd >= 0 && old(staging).NeedsFence()
        then Sent(Fence(old(staging).fenceToken, syncFd), LengthsOf(old(server.logs))) else NoFence]
      ensures rc == 0 ==> turns == WithPublished(old(turns), bufferIndex, at, |meta.published|)
      ensures rc == 0 ==> Grown(old(server.logs), server.logs)
      ensures rc == 0 ==> JustJoined(|old(server.logs)|)
    {
      var verdict := DescriptorError(staging, bufferSize);
      if verdict != Verdict.Valid {
        rejected := rejected + 1;
        return -1;
      }
      ghost var before := meta.published;
      Deliver(bufferIndex, syncFd, now, pending, breaks);
      CloseTurn(bufferIndex, at, before);
      return 0;
    }

    /** The last message of the first `n` consumers is the current bundle. */
    ghost predicate Announced(n: nat)
      reads server`logs, pool`shareFds, pool`importParams, pool`generation
    {
      n <= |server.logs| && forall c :: 0 <= c < n ==>
        server.logs[c] != [] && server.logs[c][|server.logs[c]| - 1] == Current()
    }

    method Announce() returns (n: nat)
      requires Ordered() && Cached() && server.cached && server.Bundle() == Current()
      modifies this`stamps, server`streams, server`logs
      ensures Ordered() && Cached() && server.Bundle() == Current()
      ensures Grown(old(server.logs), server.logs) && |server.logs| == |old(server.logs)|
      ensures n == if |pool.shareFds| <= MAX_FDS then |server.logs| else 0
      ensures if |pool.shareFds| <= MAX_FDS then Announced(n) else server.logs == old(server.logs)
    {
      ghost var logs := server.logs;
      n := server.BroadcastPool();
      StampNew(logs);
    }

    /** reannounce_pool: the bundle as it is now goes to every consumer again, and to those that wait. */
    method ReannouncePool(pending: nat, breaks: bool) returns (n: int)
      requires Valid()
      modifies this`cachedGen, this`stamps, server
      ensures Valid() && Grown(old(server.logs), server.logs)
      ensures |pool.shareFds| <= MAX_FDS ==>
        && |server.logs| == |old(server.logs)| + pending && Announced(|server.logs|)
        && n == |old(server.logs)| + if breaks then -1 else pending
      ensures |pool.shareFds| > MAX_FDS ==>
        server.logs == old(server.logs) && n == if breaks || pending > 0 then -1 else 0
    {
      CachePool(true);
      n := Announce();
      var accepted := AcceptWaiting(pending, breaks);
      n := n + accepted;
    }
  }

  function SizeOf(p: TensorPool, probed: U64): U64
    reads p`bufferSize, p`shareFds
  {
    if p.bufferSize != 0 then p.bufferSize else if p.shareFds != [] then probed else 0
  }

  /** create: null for a pool whose buffer size is not known, or whose import parameters no handshake can carry, or when
      the socket or the slot cannot be made. `probed` is what seeking to the end of the first buffer gives. */
  method Create(p: TensorPool, probed: U64, socket: bool, slot: bool) returns (pub: TensorPublisher?)
    requires p.Valid()
    ensures pub == null <==> SizeOf(p, probed) == 0 || |p.importParams| > MAX_EXT || !socket || !slot
    ensures pub != null ==>
      && fresh(pub) && fresh(pub.meta) && fresh(pub.meta.desc) && fresh(pub.server)
      && pub.Valid() && pub.pool == p && pub.bufferSize == SizeOf(p, probed) && pub.meta.published == []
  {
    var size := SizeOf(p, probed);
    if size == 0 { return null; }
    if |p.importParams| > MAX_EXT { return null; }
    if !socket || !slot { return null; }
    pub := new TensorPublisher(p, size);
  }

  // ------------------------------------------------------------------ after a reallocation

  /** Everything the check lets through fits a real buffer. */
  ghost predicate AcceptedFits(bufferSize: U64, actual: U64)
  {
    forall d: TensorDescriptor :: Accepted(d, bufferSize) ==> d.offset + d.size <= actual
  }

  lemma AcceptedFitsIff(bufferSize: U64, actual: U64)
    ensures AcceptedFits(bufferSize, actual) <==> bufferSize <= actual
  {
    if bufferSize > actual {
      var d := CLEARED.(rank := 1, size := bufferSize);
      assert Accepted(d, bufferSize);
      assert d.offset + d.size > actual;
    }
  }

  /** Retire, reallocate, announce: every consumer is sent the new buffers under the next generation, but with the size
      the publisher has had from the start. Whatever it then accepts fits the new buffers exactly if they are no smaller
      than that. */
  method ResizePool(pub: TensorPublisher, newSize: U64, grant: Grant, pending: nat, breaks: bool)
    returns (n: int)
    requires pub.Valid()
    modifies pub.pool, pub`cachedGen, pub`stamps, pub.server
    ensures pub.Valid() && pub.pool.generation == old(pub.pool.generation) + 1
    ensures |pub.pool.buffers| == if grant.Suffices(pub.pool.nBuffers, pub.pool.backend) then pub.pool.nBuffers else 0
    ensures pub.pool.bufferSize ==
      grant.SizeOr(PageRoundUp(newSize, pub.pool.page), pub.pool.nBuffers, pub.pool.backend, pub.pool.page)
    ensures |pub.pool.shareFds| <= MAX_FDS ==> pub.Announced(|pub.server.logs|)
    ensures pub.Current().header.bufferSize == pub.bufferSize
    ensures AcceptedFits(pub.bufferSize, pub.pool.bufferSize) <==> pub.bufferSize <= pub.pool.bufferSize
  {
    var closed := pub.pool.RetireAndReallocate(newSize, grant);
    n := pub.ReannouncePool(pending, breaks);
    AcceptedFitsIff(pub.bufferSize, pub.pool.bufferSize);
  }

  /** A publisher whose pool shrank from two pages to one, about to publish a frame of two pages. */
  method ShrunkPool() returns (pub: TensorPublisher, index: int)
    ensures fresh(pub) && fresh(pub.server) && fresh(pub.meta) && fresh(pub.meta.desc) && pub.Valid()
    ensures pub.bufferSize == 8192 && pub.pool.bufferSize == 4096 && |pub.pool.buffers| == 1
    ensures index == 0 && pub.staging == CLEARED.(poolGeneration := pub.staging.poolGeneration)
  {
    var grant := Grant(1, None, 0, false);
    var pool := new TensorPool(1, 8192, 2, 4096, grant);
    pub := new TensorPublisher(pool, pool.bufferSize);
    var n := ResizePool(pub, 4096, grant, 0, false);
    index := pub.AcquireDescriptor(0);
  }

  lemma TwoPagesAccepted(generation: U64)
    ensures Accepted(CLEARED.(poolGeneration := generation, rank := 1, size := 8192), 8192)
  {
  }

  lemma LastRecord(published: seq<Words>, d: TensorDescriptor)
    ensures var more := published + [Pack(d)]; Unpack(more[|more| - 1]) == d
  {
    PackUnpack(d);
  }

  /** A run that overruns: the frame of two pages is published into a buffer of one. */
  method OverrunAfterResize() returns (pub: TensorPublisher, rc: int)
    ensures fresh(pub) && pub.Valid() && rc == 0 && pub.meta.published != []
    ensures var d := Unpack(pub.meta.published[|pub.meta.published| - 1]);
            d.boHandle < |pub.pool.buffers| && d.offset + d.size > pub.pool.bufferSize
  {
    var index;
    pub, index := ShrunkPool();
    TwoPagesAccepted(pub.staging.poolGeneration);
    pub.staging := pub.staging.(rank := 1, size := 8192);
    ghost var before := pub.meta.published;
    rc := pub.Publish(index, -1, 0, 0, false, 0);
    LastRecord(before, pub.staging);
  }
}
