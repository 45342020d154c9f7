/** Both ends of the descriptor plane. Assumed: headers arrive whole, sends succeed. */
module Sidecar {
  import opened Machine
  import opened FenceRing
  import opened Wire

  // ------------------------------------------------------------------ server

  /** A connection's bytes are whole, well-formed messages, the first of them a pool bundle. */
  ghost predicate Framed(stream: seq<Cell>, log: seq<Message>)
  {
    && stream == EncodeAll(log)
    && (forall m :: m in log ==> WellFormed(m))
    && log != [] && log[0].PoolMsg?
  }

  lemma FramedAppend(stream: seq<Cell>, log: seq<Message>, m: Message)
    requires Framed(stream, log) && WellFormed(m)
    ensures Framed(stream + Encode(m), log + [m])
  {
    EncodeAllAppend(log, m);
  }

  /** SidecarServer: the cached pool bundle and, per connected consumer, everything written to its socket. */
  class SidecarServer {
    var poolFds: seq<Fd>
    var header: PoolHeader
    var ext: seq<U8>
    var cached: bool
    var streams: seq<seq<Cell>>
    ghost var logs: seq<seq<Message>>  // the messages behind each stream

    ghost predicate Valid()
      reads this`header, this`ext, this`streams, this`logs
    {
      && header.extLen == |ext|
      && |logs| == |streams|
      && forall c :: 0 <= c < |logs| ==> Framed(streams[c], logs[c])
    }

    constructor ()
      ensures Valid() && streams == [] && logs == [] && !cached
    {
      poolFds, ext, cached, streams, logs := [], [], false, [], [];
      header := PoolHeader(0, 0, 0, 0, 0, 0);
    }

    ghost function Bundle(): Message
      reads this`header, this`poolFds, this`ext
    {
      PoolMsg(header, poolFds, ext)
    }

    /** set_pool: false when a blob was given but cannot be carried. */
    method SetPool(fds: seq<Fd>, generation: U32, bufferSize: U64, wireVersion: U32, backend: U8, blob: seq<U8>)
      returns (carried: bool)
      requires Valid()
      modifies this`poolFds, this`header, this`ext, this`cached
      ensures Valid() && cached
      ensures carried <==> |blob| <= MAX_EXT
      ensures Bundle() == var b := if carried then blob else [];
                          PoolMsg(PoolHeader(backend, |b|, wireVersion, generation, Wrap32(|fds|), bufferSize), fds, b)
    {
      poolFds, cached := fds, true;
      header := PoolHeader(backend, |blob| % 0x1_0000, wireVersion, generation, Wrap32(|fds|), bufferSize);
      if 0 < |blob| <= MAX_EXT {
        ext := blob;
        return true;
      }
      ext := [];
      header := header.(extLen := 0);
      return |blob| == 0;
    }

    /** send_pool_to: header and descriptors in one message, then the blob in as many sends as it takes. */
    method SendPoolTo(stream: seq<Cell>) returns (ok: bool, written: seq<Cell>)
      requires Valid() && cached
      ensures ok <==> |poolFds| <= MAX_FDS
      ensures written == if ok then stream + Encode(Bundle()) else stream
    {
      if |poolFds| > MAX_FDS { return false, stream; }
      written := stream + Cells(HeaderBytes(header), poolFds);
      var p := 0;
      while p < |ext|
        invariant 0 <= p <= |ext|
        invariant written == stream + Cells(HeaderBytes(header), poolFds) + Cells(ext[..p], [])
      {
        var w: nat :| 0 < w <= |ext| - p;  // a short send
        assert Cells(ext[..p + w], []) == Cells(ext[..p], []) + Cells(ext[p..p + w], []);
        written := written + Cells(ext[p..p + w], []);
        p := p + w;
      }
      assert ext[..p] == ext;
      return true, written;
    }

    /** One pending connection of accept_and_handshake: it joins the clients only once it has the bundle. */
    method Accept() returns (ok: bool)
      requires Valid() && cached
      modifies this`streams, this`logs
      ensures Valid() && (ok <==> |poolFds| <= MAX_FDS)
      ensures logs == if ok then old(logs) + [[Bundle()]] else old(logs)
    {
      var stream;
      ok, stream := SendPoolTo([]);
      if ok {
        assert EncodeAll([Bundle()]) == Encode(Bundle()) + EncodeAll([]);
        streams := streams + [stream];
        logs := logs + [[Bundle()]];
      }
    }

    /** accept_and_handshake: `pending` connections are waiting, and then the poll or the accept may break. */
    method AcceptAndHandshake(pending: nat, breaks: bool) returns (rc: int)
      requires Valid() && cached
      modifies this`streams, this`logs
      ensures Valid() && rc == if breaks || (pending > 0 && |poolFds| > MAX_FDS) then -1 else pending
      ensures old(logs) <= logs && |logs| == |old(logs)| + if |poolFds| > MAX_FDS then 0 else pending
      ensures forall c :: |old(logs)| <= c < |logs| ==> logs[c] == [Bundle()]
    {
      rc := 0;
      while rc < pending
        invariant 0 <= rc <= pending && Valid() && (rc > 0 ==> |poolFds| <= MAX_FDS)
        invariant old(logs) <= logs && |logs| == |old(logs)| + rc
        invariant forall c :: |old(logs)| <= c < |logs| ==> logs[c] == [Bundle()]
      {
        var ok := Accept();
        if !ok { return -1; }
        rc := rc + 1;
      }
      if breaks { rc := -1; }
    }

    /** broadcast_pool: one more pool message for every client, or for none when there are too many descriptors. */
    method BroadcastPool() returns (n: nat)
      requires Valid() && cached
      modifies this`streams, this`logs
      ensures Valid() && n == if |poolFds| <= MAX_FDS then |streams| else 0
      ensures |logs| == |old(logs)|
      ensures forall c :: 0 <= c < |logs| ==>
        logs[c] == old(logs)[c] + (if |poolFds| <= MAX_FDS then [Bundle()] else [])
      ensures |poolFds| > MAX_FDS ==> logs == old(logs)
    {
      n := 0;
      for c := 0 to |streams|
        invariant Valid() && |logs| == |old(logs)| && n == if |poolFds| <= MAX_FDS then c else 0
        invariant |poolFds| > MAX_FDS ==> logs == old(logs)
        invariant forall i :: 0 <= i < |logs| ==>
          logs[i] == old(logs)[i] + (if i < c && |poolFds| <= MAX_FDS then [Bundle()] else [])
      {
        var ok, stream := SendPoolTo(streams[c]);
        if ok {
          n := n + 1;
          FramedAppend(streams[c], logs[c], Bundle());
          streams := streams[c := stream];
          logs := logs[c := logs[c] + [Bundle()]];
        }
      }
    }

    /** broadcast_sync_fence. */
    method BroadcastSyncFence(token: U64, fd: Fd) returns (n: nat)
      requires Valid()
      modifies this`streams, this`logs
      ensures Valid() && n == |streams| && |logs| == |old(logs)|
      ensures forall c :: 0 <= c < |logs| ==> logs[c] == old(logs)[c] + [FenceMsg(Fence(token, fd))]
    {
      ghost var m := FenceMsg(Fence(token, fd));
      n := 0;
      for c := 0 to |streams|
        invariant Valid() && |logs| == |old(logs)| && n == c
        invariant forall i :: 0 <= i < |logs| ==> logs[i] == old(logs)[i] + (if i < c then [m] else [])
      {
        FramedAppend(streams[c], logs[c], m);
        streams := streams[c := streams[c] + Cells(FenceBytes(token), [fd])];
        logs := logs[c := logs[c] + [m]];
        n := n + 1;
      }
    }
  }

  // ------------------------------------------------------------------ positions in a stream

  /** Position `pos` of the stream is where message `at` begins. */
  ghost predicate Boundary(data: seq<Cell>, pos: nat, msgs: seq<Message>, at: nat)
  {
    && pos <= |data| && at <= |msgs|
    && data[pos..] == EncodeAll(msgs[at..])
    && forall m :: m in msgs ==> WellFormed(m)
  }

  /** Position `pos` is where the blob of pool message m begins; message `at` follows it. */
  ghost predicate BlobNext(data: seq<Cell>, pos: nat, msgs: seq<Message>, at: nat, m: Message)
  {
    && m.PoolMsg? && WellFormed(m)
    && pos + |m.blob| <= |data|
    && BytesOf(data[pos..pos + |m.blob|]) == m.blob
    && Boundary(data, pos + |m.blob|, msgs, at)
  }

  /** How much poll_sync_fences receives as a header when it peeks this tag. */
  function HeaderSize(tag: U8): (n: nat)
    ensures n == 16 || n == 24
  {
    if tag == FENCE_TAG then 16 else 24
  }

  /** What stands at `pos`, taken for a header, is there in full. */
  predicate HeaderWhole(data: seq<Cell>, pos: nat)
  {
    pos < |data| && pos + HeaderSize(data[pos].byte) <= |data|
  }

  function HeaderCells(data: seq<Cell>, pos: nat): (c: seq<Cell>)
    requires HeaderWhole(data, pos)
    ensures |c| == HeaderSize(data[pos].byte)
  {
    data[pos..pos + HeaderSize(data[pos].byte)]
  }

  /** The fence a drain makes of what stands at `pos`, if it makes one of it. */
  function FenceRead(data: seq<Cell>, pos: nat): (fs: seq<Fence>)
    requires HeaderWhole(data, pos)
  {
    var c := HeaderCells(data, pos);
    if data[pos].byte == FENCE_TAG && |FdsOn(c)| == 1 then [Fence(DecodeToken(BytesOf(c)), FdsOn(c)[0])] else []
  }

  /** All the fences a drain makes of what stands at some positions, in order. */
  function FencesRead(data: seq<Cell>, starts: seq<nat>): (fs: seq<Fence>)
    requires forall p :: p in starts ==> HeaderWhole(data, p)
  {
    if starts == [] then [] else FencesRead(data, starts[..|starts| - 1]) + FenceRead(data, starts[|starts| - 1])
  }

  /** All the descriptors received with the headers at some positions, in order. */
  function FdsRead(data: seq<Cell>, starts: seq<nat>): (fds: seq<Fd>)
    requires forall p :: p in starts ==> HeaderWhole(data, p)
  {
    if starts == [] then []
    else FdsRead(data, starts[..|starts| - 1]) + FdsOn(HeaderCells(data, starts[|starts| - 1]))
  }

  /** Where a drain goes on after the header it takes at `pos`: a pool's blob is skipped with it. */
  function NextStart(data: seq<Cell>, pos: nat): (q: nat)
    requires HeaderWhole(data, pos)
    ensures q >= pos + HeaderSize(data[pos].byte)
  {
    var q := pos + HeaderSize(data[pos].byte);
    if data[pos].byte == POOL_TAG then q + DecodeHeader(BytesOf(HeaderCells(data, pos))).extLen else q
  }

  ghost predicate Link(data: seq<Cell>, starts: seq<nat>, i: nat)
    requires i + 1 < |starts|
  {
    HeaderWhole(data, starts[i]) && starts[i + 1] == NextStart(data, starts[i])
  }

  /** Headers taken at `starts`, one after the other, from position p on. */
  ghost predicate Chain(data: seq<Cell>, p: nat, starts: seq<nat>)
  {
    && (forall s :: s in starts ==> HeaderWhole(data, s))
    && (starts != [] ==> starts[0] == p)
    && forall i: nat :: i + 1 < |starts| ==> Link(data, starts, i)
  }

  function EndOf(data: seq<Cell>, p: nat, starts: seq<nat>): (q: nat)
    requires forall s :: s in starts ==> HeaderWhole(data, s)
  {
    if starts == [] then p else NextStart(data, starts[|starts| - 1])
  }

  lemma ChainOn(data: seq<Cell>, p: nat, starts: seq<nat>)
    requires Chain(data, p, starts) && HeaderWhole(data, EndOf(data, p, starts))
    ensures var q := EndOf(data, p, starts);
            Chain(data, p, starts + [q])
  {
    var more := starts + [EndOf(data, p, starts)];
    assert more[..|starts|] == starts;
    forall i: nat | i + 1 < |more| ensures Link(data, more, i) {
      assert i + 1 < |starts| ==> Link(data, starts, i);
    }
  }

  lemma SliceOfRest(data: seq<Cell>, pos: nat, a: nat, b: nat)
    requires pos + b <= |data| && a <= b
    ensures data[pos..][a..b] == data[pos + a..pos + b] && data[pos..][b..] == data[pos + b..]
  {
  }

  lemma DecodesTo(bytes: seq<U8>, h: PoolHeader)
    requires bytes == HeaderBytes(h)
    ensures DecodeHeader(bytes) == h && bytes[0] == POOL_TAG
  {
    HeaderRoundTrip(h);
  }

  lemma BlobAt(data: seq<Cell>, pos: nat, msgs: seq<Message>, at: nat)
    requires Boundary(data, pos, msgs, at) && at < |msgs| && msgs[at].PoolMsg?
    ensures pos + 24 <= |data| && BlobNext(data, pos + 24, msgs, at + 1, msgs[at])
  {
    var rest, m := data[pos..], msgs[at];
    assert msgs[at..][0] == m && msgs[at..][1..] == msgs[at + 1..];
    PoolAtHead(rest, msgs[at..]);
    SliceOfRest(data, pos, 24, 24 + |m.blob|);
  }

  lemma PoolHeaderAt(data: seq<Cell>, pos: nat, msgs: seq<Message>, at: nat)
    requires Boundary(data, pos, msgs, at) && at < |msgs| && msgs[at].PoolMsg?
    ensures pos + 24 <= |data| && data[pos].byte == POOL_TAG
    ensures FdsOn(data[pos..pos + 24]) == FdsIn(msgs[at])
    ensures DecodeHeader(BytesOf(data[pos..pos + 24])) == msgs[at].header
    ensures BlobNext(data, pos + 24, msgs, at + 1, msgs[at])
  {
    var rest, m := data[pos..], msgs[at];
    assert msgs[at..][0] == m;
    PoolAtHead(rest, msgs[at..]);
    SliceOfRest(data, pos, 0, 24);
    assert rest[..24] == rest[0..24];
    DecodesTo(BytesOf(data[pos..pos + 24]), m.header);
    BlobAt(data, pos, msgs, at);
  }

  lemma FirstHeaderAt(data: seq<Cell>, pos: nat, msgs: seq<Message>)
    requires Boundary(data, pos, msgs, 0) && msgs != [] && msgs[0].PoolMsg?
    ensures pos + 24 <= |data| && FdsOn(data[pos..pos + 24]) == msgs[0].fds
    ensures var bytes := BytesOf(data[pos..pos + 24]); bytes[0] == POOL_TAG && DecodeHeader(bytes) == msgs[0].header
    ensures BlobNext(data, pos + 24, msgs, 1, msgs[0])
  {
    PoolHeaderAt(data, pos, msgs, 0);
    assert BytesOf(data[pos..pos + 24])[0] == data[pos].byte;
  }

  lemma FenceHeaderAt(data: seq<Cell>, pos: nat, msgs: seq<Message>, at: nat)
    requires Boundary(data, pos, msgs, at) && at < |msgs| && msgs[at].FenceMsg?
    ensures pos + 16 <= |data| && data[pos].byte == FENCE_TAG
    ensures FdsOn(data[pos..pos + 16]) == [msgs[at].fence.fd]
    ensures DecodeToken(BytesOf(data[pos..pos + 16])) == msgs[at].fence.token
    ensures Boundary(data, pos + 16, msgs, at + 1)
  {
    var rest, m := data[pos..], msgs[at];
    assert msgs[at..][0] == m && msgs[at..][1..] == msgs[at + 1..];
    assert rest[0] == data[pos];
    FenceAtHead(rest, msgs[at..]);
    TokenRoundTrip(m.fence.token);
    assert rest[..16] == data[pos..pos + 16];
    assert rest[16..] == data[pos + 16..];
  }

  /** What is found at a boundary, and where the next one is. */
  lemma HeaderAt(data: seq<Cell>, pos: nat, msgs: seq<Message>, at: nat)
    requires Boundary(data, pos, msgs, at) && at < |msgs|
    ensures HeaderWhole(data, pos) && Boundary(data, NextStart(data, pos), msgs, at + 1)
    ensures FdsOn(HeaderCells(data, pos)) == FdsIn(msgs[at]) && FenceRead(data, pos) == FenceIn(msgs[at])
  {
    if msgs[at].PoolMsg? {
      PoolHeaderAt(data, pos, msgs, at);
    } else {
      FenceHeaderAt(data, pos, msgs, at);
    }
  }

  lemma NotAtEnd(data: seq<Cell>, pos: nat, msgs: seq<Message>, at: nat)
    requires Boundary(data, pos, msgs, at) && HeaderWhole(data, pos)
    ensures at < |msgs|
  {
    assert |EncodeAll(msgs[at..])| == |data[pos..]| > 0;
    assert msgs[at..] != [];
  }

  lemma NothingLeft(data: seq<Cell>, pos: nat, msgs: seq<Message>, at: nat)
    requires Boundary(data, pos, msgs, at) && !HeaderWhole(data, pos)
    ensures at == |msgs|
  {
    if at < |msgs| {
      HeaderAt(data, pos, msgs, at);
    }
  }

  lemma OneMoreMessage(msgs: seq<Message>, a: nat, b: nat)
    requires a <= b < |msgs|
    ensures FencesOf(msgs[a..b + 1]) == FencesOf(msgs[a..b]) + FenceIn(msgs[b])
  {
    assert msgs[a..b + 1][..b - a] == msgs[a..b];
  }

  lemma ChainInit(data: seq<Cell>, p: nat, starts: seq<nat>)
    requires Chain(data, p, starts) && starts != []
    ensures var n := |starts| - 1; Chain(data, p, starts[..n]) && EndOf(data, p, starts[..n]) == starts[n]
  {
    var n := |starts| - 1;
    var init := starts[..n];
    assert n > 0 ==> Link(data, starts, n - 1) && init[n - 1] == starts[n - 1];
    forall i: nat | i + 1 < |init| ensures Link(data, init, i) {
      assert Link(data, starts, i);
    }
  }

  /** The headers taken at `starts` are those of the messages from a to `at`, and the drain ends where the latter
      begins. */
  ghost predicate Follows(data: seq<Cell>, p: nat, msgs: seq<Message>, a: nat, at: nat, starts: seq<nat>)
  {
    && a <= at <= |msgs| && (forall q :: q in starts ==> HeaderWhole(data, q))
    && Boundary(data, EndOf(data, p, starts), msgs, at) && FencesRead(data, starts) == FencesOf(msgs[a..at])
  }

  lemma FollowNone(data: seq<Cell>, p: nat, msgs: seq<Message>, a: nat)
    requires Boundary(data, p, msgs, a)
    ensures Follows(data, p, msgs, a, a, [])
  {
    assert msgs[a..a] == [];
  }

  lemma FollowOne(data: seq<Cell>, p: nat, msgs: seq<Message>, a: nat, b: nat, at: nat, starts: seq<nat>)
    requires Chain(data, p, starts) && starts != [] && at == b + 1
    requires Follows(data, p, msgs, a, b, starts[..|starts| - 1])
    ensures Follows(data, p, msgs, a, at, starts)
  {
    var s := starts[|starts| - 1];
    ChainInit(data, p, starts);
    NotAtEnd(data, s, msgs, b);
    HeaderAt(data, s, msgs, b);
    OneMoreMessage(msgs, a, b);
    assert EndOf(data, p, starts) == NextStart(data, s);
  }

  /** Headers taken one after the other from a boundary on are those of the messages. */
  lemma {:induction false} ChainFollows(data: seq<Cell>, p: nat, msgs: seq<Message>, a: nat, at: nat, starts: seq<nat>)
    requires Boundary(data, p, msgs, a) && Chain(data, p, starts) && at == a + |starts|
    ensures Follows(data, p, msgs, a, at, starts)
    decreases |starts|
  {
    if |starts| == 0 {
      FollowNone(data, p, msgs, a);
    } else {
      var b: nat := at - 1;
      ChainInit(data, p, starts);
      ChainFollows(data, p, msgs, a, b, starts[..|starts| - 1]);
      FollowOne(data, p, msgs, a, b, at, starts);
    }
  }

  /** A drain that began in step, at message a: exactly the fences of as many messages as headers were taken were
      read, and the position is a boundary with nothing that had arrived left behind, or the connection is known to
      be cut. */
  ghost predicate DeliveredInStep(data: seq<Cell>, pos: nat, shut: bool, msgs: seq<Message>, a: nat, at: nat,
                                  starts: seq<nat>, arrived: nat)
  {
    && at == a + |starts| <= |msgs|
    && (forall p :: p in starts ==> HeaderWhole(data, p)) && FencesRead(data, starts) == FencesOf(msgs[a..at])
    && (shut || (Boundary(data, pos, msgs, at) && (arrived <= at || arrived > |msgs|)))
  }

  lemma DeliveredUpTo(data: seq<Cell>, pos: nat, shut: bool, msgs: seq<Message>, a: nat, at: nat,
                      starts: seq<nat>, arrived: nat)
    requires DeliveredInStep(data, pos, shut, msgs, a, at, starts, arrived)
    ensures at <= |msgs| && (forall p :: p in starts ==> HeaderWhole(data, p))
    ensures FencesRead(data, starts) == FencesOf(msgs[a..at])
    ensures shut || (Boundary(data, pos, msgs, at) && (arrived <= at || arrived > |msgs|))
  {
  }

  lemma FollowedDelivers(data: seq<Cell>, pos: nat, shut: bool, msgs: seq<Message>, a: nat, at: nat,
                         starts: seq<nat>, arrived: nat)
    requires at == a + |starts| <= |msgs| && forall p :: p in starts ==> HeaderWhole(data, p)
    requires FencesRead(data, starts) == FencesOf(msgs[a..at]) && (shut || Boundary(data, pos, msgs, at))
    requires shut || arrived <= at || !HeaderWhole(data, pos)
    ensures DeliveredInStep(data, pos, shut, msgs, a, at, starts, arrived)
  {
    if !shut && !HeaderWhole(data, pos) { NothingLeft(data, pos, msgs, at); }
  }

  lemma DrainDelivers(data: seq<Cell>, p: nat, pos: nat, shut: bool, msgs: seq<Message>, a: nat, at: nat,
                      starts: seq<nat>, arrived: nat)
    requires Boundary(data, p, msgs, a) && Chain(data, p, starts) && (shut || pos == EndOf(data, p, starts))
    requires at == a + |starts| && (shut || arrived <= at || !HeaderWhole(data, pos))
    ensures DeliveredInStep(data, pos, shut, msgs, a, at, starts, arrived)
  {
    ChainFollows(data, p, msgs, a, at, starts);
    FollowedDelivers(data, pos, shut, msgs, a, at, starts, arrived);
  }

  lemma {:induction false} EncodedSuffix(ms: seq<Message>, k: nat)
    requires 0 < k <= |ms|
    ensures |EncodeAll(ms[k..])| <= |EncodeAll(ms)| - |Encode(ms[0])|
  {
    if k > 1 {
      EncodedSuffix(ms[1..], k - 1);
      assert ms[1..][k - 1..] == ms[k..];
    }
  }

  /** Inside the blob of the first message there is no message boundary, whatever the bytes. */
  lemma MidBlobIsNoBoundary(data: seq<Cell>, pos: nat, msgs: seq<Message>, k: nat)
    requires Framed(data, msgs) && 0 < pos < |Encode(msgs[0])|
    ensures !Boundary(data, pos, msgs, k)
  {
    if k == 0 {
      assert msgs[0..] == msgs;
    } else if k <= |msgs| {
      EncodedSuffix(msgs, k);
    }
  }

  // ------------------------------------------------------------------ accounts

  /** Every descriptor that came is owned or closed, once. */
  ghost predicate Ledger(owned: seq<Fd>, came: seq<Fd>, closed: seq<Fd>, owned': seq<Fd>)
  {
    multiset(closed) + multiset(owned') == multiset(owned) + multiset(came)
  }

  lemma LedgerStep(owned: seq<Fd>, came: seq<Fd>, closed: seq<Fd>, between: seq<Fd>,
                   more: seq<Fd>, now: seq<Fd>, after: seq<Fd>)
    requires Ledger(owned, came, closed, between) && Ledger(between, more, now, after)
    ensures Ledger(owned, came + more, closed + now, after)
  {
    var c, n, o, o', s := multiset(closed), multiset(now), multiset(between), multiset(after), multiset(owned);
    var r, q := multiset(came), multiset(more);
    assert (c + n) + o' == c + (n + o') == c + (o + q) == (c + o) + q == (s + r) + q == s + (r + q);
  }

  lemma StoredLedger(owned: seq<Fd>, fd: Fd, closed: seq<Fd>, owned': seq<Fd>)
    requires closed + owned' == owned + [fd]
    ensures Ledger(owned, [fd], closed, owned')
  {
    assert multiset(closed + owned') == multiset(closed) + multiset(owned');
  }

  ghost predicate PastHeader(data: seq<Cell>, s: nat, q: nat)
  {
    HeaderWhole(data, s) && s + HeaderSize(data[s].byte) <= q
  }

  ghost predicate TakenFrom(fds: seq<Fd>, cells: seq<Cell>) { multiset(fds) <= multiset(FdsOn(cells)) }

  lemma Within(a: seq<Fd>, b: seq<Fd>, x: seq<Fd>, y: seq<Fd>, whole: seq<Fd>)
    requires multiset(a) <= multiset(x) && whole == x + b + y
    ensures multiset(a + b) <= multiset(whole)
  {
  }

  lemma Carried(data: seq<Cell>, p: nat, s: nat, e: nat, q: nat)
    requires p <= s <= e <= q <= |data|
    ensures FdsOn(data[p..q]) == FdsOn(data[p..s]) + FdsOn(data[s..e]) + FdsOn(data[e..q])
  {
    assert data[p..q] == data[p..e] + data[e..q] && data[p..e] == data[p..s] + data[s..e];
    FdsOnConcat(data[p..e], data[e..q]);
    FdsOnConcat(data[p..s], data[s..e]);
  }

  lemma TakenStep(data: seq<Cell>, p: nat, s: nat, e: nat, q: nat, fds: seq<Fd>, more: seq<Fd>, all: seq<Fd>)
    requires p <= s <= e <= q <= |data| && TakenFrom(fds, data[p..s])
    requires more == FdsOn(data[s..e]) && all == fds + more
    ensures TakenFrom(all, data[p..q])
  {
    Carried(data, p, s, e, q);
    Within(fds, more, FdsOn(data[p..s]), FdsOn(data[e..q]), FdsOn(data[p..q]));
  }

  lemma LastRead(data: seq<Cell>, starts: seq<nat>)
    requires starts != [] && forall p :: p in starts ==> HeaderWhole(data, p)
    ensures var n := |starts| - 1;
            FdsRead(data, starts) == FdsRead(data, starts[..n]) + FdsOn(HeaderCells(data, starts[n]))
  {
  }

  lemma ReadStep(data: seq<Cell>, p: nat, s: nat, q: nat, was: seq<Fd>, now: seq<Fd>)
    requires p <= s && PastHeader(data, s, q) && q <= |data| && TakenFrom(was, data[p..s])
    requires now == was + FdsOn(HeaderCells(data, s))
    ensures TakenFrom(now, data[p..q])
  {
    TakenStep(data, p, s, s + HeaderSize(data[s].byte), q, was, FdsOn(HeaderCells(data, s)), now);
  }

  lemma {:induction false} ChainGrows(data: seq<Cell>, p: nat, starts: seq<nat>)
    requires Chain(data, p, starts)
    ensures p <= EndOf(data, p, starts)
    ensures starts != [] ==> PastHeader(data, starts[|starts| - 1], EndOf(data, p, starts))
    decreases |starts|
  {
    if starts != [] {
      ChainInit(data, p, starts);
      ChainGrows(data, p, starts[..|starts| - 1]);
    }
  }

  /** What is received with headers from position p on is among what the cells carry. A plain receive drops the
      descriptors on the bytes it reads. */
  lemma {:induction false} ReadIsCarried(data: seq<Cell>, p: nat, starts: seq<nat>, q: nat)
    requires Chain(data, p, starts) && p <= q <= |data|
    requires starts != [] ==> PastHeader(data, starts[|starts| - 1], q)
    ensures TakenFrom(FdsRead(data, starts), data[p..q])
    decreases |starts|
  {
    if starts != [] {
      var n := |starts| - 1;
      ChainInit(data, p, starts);
      ChainGrows(data, p, starts[..n]);
      ReadIsCarried(data, p, starts[..n], starts[n]);
      LastRead(data, starts);
      ReadStep(data, p, starts[n], q, FdsRead(data, starts[..n]), FdsRead(data, starts));
    }
  }

  /** What a drain that took the headers at `starts` did to a ring that stood for `stores` and owned `owned`. */
  ghost predicate RingFilled(data: seq<Cell>, starts: seq<nat>, stores: seq<Fence>, owned: seq<Fd>,
                             count: nat, closed: seq<Fd>, stores': seq<Fence>, owned': seq<Fd>)
  {
    && (forall p :: p in starts ==> HeaderWhole(data, p))
    && stores' == stores + FencesRead(data, starts) && count == |FencesRead(data, starts)|
    && Ledger(owned, FdsRead(data, starts), closed, owned')
  }

  lemma FillStep(data: seq<Cell>, starts: seq<nat>, q: nat, stores: seq<Fence>, owned: seq<Fd>,
                 count: nat, closed: seq<Fd>, stores': seq<Fence>, owned': seq<Fd>,
                 now: seq<Fd>, stores'': seq<Fence>, owned'': seq<Fd>)
    requires RingFilled(data, starts, stores, owned, count, closed, stores', owned') && HeaderWhole(data, q)
    requires stores'' == stores' + FenceRead(data, q) && Ledger(owned', FdsOn(HeaderCells(data, q)), now, owned'')
    ensures RingFilled(data, starts + [q], stores, owned, count + |FenceRead(data, q)|, closed + now, stores'', owned'')
  {
    assert (starts + [q])[..|starts|] == starts;
    LedgerStep(owned, FdsRead(data, starts), closed, owned', FdsOn(HeaderCells(data, q)), now, owned'');
  }

  // ------------------------------------------------------------------ client

  function Min(a: nat, b: nat): nat { if a <= b then a else b }

  /** Where a receive at `pos` that is meant for a header, and ends early after at most `most` bytes, leaves off. */
  function CutAt(data: seq<Cell>, pos: nat, most: nat): (end: nat)
    requires pos <= |data|
    ensures pos <= end <= |data|
  {
    if pos == |data| then pos else pos + Min(Min(most, HeaderSize(data[pos].byte) - 1), |data| - pos)
  }

  /** SidecarClient on one connection. `data` is everything the server ever writes to it; how much of it is there when
      a call looks is a parameter, or the poll's answer, which may say "nothing" at any time. */
  class SidecarClient {
    var data: seq<Cell>
    var pos: nat
    var shut: bool
    ghost var msgs: seq<Message>
    var at: nat                  // headers received so far

    /** The read position is the boundary before message `at`. */
    ghost predicate Synced()
      reads this
    {
      Boundary(data, pos, msgs, at)
    }

    constructor ()
      ensures Synced() && at == 0 && msgs == [] && !shut && data == [] && pos == 0
    {
      data, pos, shut, msgs, at := [], 0, false, [], 0;
    }

    /** connect: the old link, if any, is dropped. */
    method Connect(stream: seq<Cell>, ghost log: seq<Message>, answered: bool) returns (ok: bool)
      requires Framed(stream, log)
      modifies this
      ensures ok == answered
      ensures ok ==> Synced() && !shut && msgs == log && at == 0 && data == stream && pos == 0
      ensures !ok ==> unchanged(this)
    {
      if !answered { return false; }
      data, pos, shut, msgs, at := stream, 0, false, log, 0;
      return true;
    }

    /** recv_fds of n bytes, of which the kernel delivers the first `got` together with the descriptors on them. If that
        is short it fails, and nobody knows these descriptors any more. */
    method RecvFds(n: nat, got: nat) returns (ok: bool, bytes: seq<U8>, fds: seq<Fd>, ghost lost: seq<Fd>)
      requires got <= n && pos + got <= |data|
      modifies this`pos
      ensures ok == (got == n) && pos == old(pos) + got
      ensures if ok then bytes == BytesOf(data[old(pos)..pos]) && fds == FdsOn(data[old(pos)..pos]) && lost == []
              else bytes == [] && fds == [] && lost == FdsOn(data[old(pos)..pos])
    {
      var start := pos;
      pos := pos + got;
      if got != n { return false, [], [], FdsOn(data[start..pos]); }
      return true, BytesOf(data[start..pos]), FdsOn(data[start..pos]), [];
    }

    /** read_exact: `coming` is how many more bytes arrive before the timeout, in pieces of any size. */
    method ReadExact(n: nat, coming: nat) returns (ok: bool, bytes: seq<U8>)
      requires pos <= |data|
      modifies this`pos
      ensures ok <==> n <= Min(coming, |data| - old(pos))
      ensures pos == old(pos) + Min(n, Min(coming, |data| - old(pos)))
      ensures bytes == BytesOf(data[old(pos)..pos])
    {
      bytes := [];
      var start := pos;
      var there := Min(coming, |data| - pos);
      var remaining := n;
      while remaining > 0
        invariant start <= pos && pos - start <= Min(n, there) && remaining == start + n - pos
        invariant bytes == BytesOf(data[start..pos])
      {
        var left := start + there - pos;
        if left == 0 { return false, bytes; }
        var most := Min(remaining, left);
        var r: nat :| 0 < r <= most;
        assert data[start..pos + r] == data[start..pos] + data[pos..pos + r];
        bytes := bytes + BytesOf(data[pos..pos + r]);
        pos := pos + r;
        remaining := remaining - r;
      }
      return true, bytes;
    }

    /** The receive of the first header on a connection. */
    method RecvFirstHeader() returns (tag: U8, header: PoolHeader, fds: seq<Fd>)
      requires Synced() && at == 0 && msgs != [] && msgs[0].PoolMsg?
      modifies this`pos, this`at
      ensures tag == POOL_TAG && header == msgs[0].header && fds == msgs[0].fds
      ensures at == 1 && pos == old(pos) + 24 && BlobNext(data, pos, msgs, 1, msgs[0])
      ensures fds == FdsOn(data[old(pos)..pos])
    {
      FirstHeaderAt(data, pos, msgs);
      var ok, bytes;
      ghost var lost;
      ok, bytes, fds, lost := RecvFds(24, 24);
      at := 1;
      tag, header := bytes[0], DecodeHeader(bytes);
    }

    /** recv_pool_handshake on a new connection: whether the header comes, and how much of the blob, in time. `closed`
        are the descriptors it received and gave up again. */
    method RecvPoolHandshake(answered: bool, coming: nat)
      returns (ok: bool, header: PoolHeader, fds: seq<Fd>, ext: seq<U8>, closed: seq<Fd>)
      requires Synced() && !shut && at == 0 && msgs != [] && msgs[0].PoolMsg?
      modifies this`pos, this`at
      ensures ok <==> answered && |msgs[0].blob| <= coming
      ensures ok ==> Synced() && at == 1 && PoolMsg(header, fds, ext) == msgs[0] && closed == []
      ensures !ok ==> fds == [] && closed == if answered then msgs[0].fds else []
      ensures !answered ==> pos == old(pos) && at == 0
      ensures answered && !ok ==> pos == old(pos) + 24 + coming && at == 1
      ensures old(pos) <= pos <= |data|
    {
      header, ext, fds, closed := PoolHeader(0, 0, 0, 0, 0, 0), [], [], [];
      if !answered { return false, header, fds, ext, closed; }
      var tag;
      tag, header, fds := RecvFirstHeader();
      if tag != POOL_TAG { return false, header, [], ext, fds; }
      ok := true;
      if header.extLen > 0 {
        ok, ext := ReadExact(header.extLen, coming);
        if !ok { return false, header, [], ext, fds; }
      }
      assert ext == msgs[0].blob;
    }

    /** Skip a re-announced blob, 512 bytes at a time. */
    method SkipBlob(n: nat, coming: nat) returns (framed: bool)
      requires pos <= |data|
      modifies this`pos
      ensures framed <==> n <= Min(coming, |data| - old(pos))
      ensures pos == old(pos) + Min(n, Min(coming, |data| - old(pos)))
    {
      framed := true;
      var start, left := pos, n;
      while left > 0 && framed
        invariant start <= pos <= |data| && 0 <= left <= n
        invariant framed ==> pos == start + n - left <= start + coming
        invariant !framed ==> pos == start + Min(coming, |data| - start) < start + n
      {
        var chunk := Min(left, 512);
        var bytes;
        framed, bytes := ReadExact(chunk, coming - (pos - start));
        left := left - chunk;
      }
    }

    /** What becomes of the descriptors of a header that announces no pool: one fence is stored, anything else
        closed. */
    method Sink(ring: Ring, tag: U8, bytes: seq<U8>, fds: seq<Fd>) returns (fences: nat, closed: seq<Fd>)
      requires ring.Valid() && |bytes| == HeaderSize(tag)
      modifies ring, ring.slots
      ensures ring.Valid() && Ledger(old(ring.Owned()), fds, closed, ring.Owned())
      ensures var read := if tag == FENCE_TAG && |fds| == 1 then [Fence(DecodeToken(bytes), fds[0])] else [];
              ring.stores == old(ring.stores) + read && fences == |read|
    {
      if tag == FENCE_TAG && |fds| == 1 {
        closed := ring.Store(DecodeToken(bytes), fds[0]);
        assert fds == [fds[0]];
        StoredLedger(old(ring.Owned()), fds[0], closed, ring.Owned());
        return 1, closed;
      }
      return 0, fds;
    }

    /** One pass of poll_sync_fences over a header that is there: a fence goes to the ring, a re-announced pool is
        skipped, other descriptors are closed. A blob that does not come in time ends the connection. */
    method TakeMessage(ring: Ring) returns (fences: nat, closed: seq<Fd>)
      requires HeaderWhole(data, pos) && !shut && ring.Valid()
      modifies this`pos, this`at, this`shut, ring, ring.slots
      ensures ring.Valid() && at == old(at) + 1 && old(pos) + HeaderSize(data[old(pos)].byte) <= pos <= |data|
      ensures shut || pos == NextStart(data, old(pos))
      ensures ring.stores == old(ring.stores) + FenceRead(data, old(pos)) && fences == |FenceRead(data, old(pos))|
      ensures Ledger(old(ring.Owned()), FdsOn(HeaderCells(data, old(pos))), closed, ring.Owned())
    {
      var tag := data[pos].byte;
      ghost var cells := HeaderCells(data, pos);
      var ok, bytes, fds;
      ghost var lost;
      ok, bytes, fds, lost := RecvFds(HeaderSize(tag), HeaderSize(tag));
      assert bytes == BytesOf(cells) && fds == FdsOn(cells);
      at := at + 1;
      if tag == POOL_TAG {
        var coming: nat := *;
        var framed := SkipBlob(DecodeHeader(bytes).extLen, coming);
        if !framed { shut := true; }
      }
      fences, closed := Sink(ring, tag, bytes, fds);
    }

    /** How far a drain that began at position p has come. `starts` are the positions at which it took headers. */
    ghost predicate Drained(p: nat, starts: seq<nat>)
      reads this
    {
      && p <= pos <= |data| && Chain(data, p, starts) && (shut || pos == EndOf(data, p, starts))
      && (starts != [] ==> PastHeader(data, starts[|starts| - 1], pos))
    }

    method DrainOne(ring: Ring, ghost p: nat, ghost starts: seq<nat>) returns (fences: nat, closed: seq<Fd>)
      requires Drained(p, starts) && !shut && HeaderWhole(data, pos) && ring.Valid()
      modifies this`pos, this`at, this`shut, ring, ring.slots
      ensures Drained(p, starts + [old(pos)]) && ring.Valid() && pos > old(pos) && at == old(at) + 1
      ensures ring.stores == old(ring.stores) + FenceRead(data, old(pos)) && fences == |FenceRead(data, old(pos))|
      ensures Ledger(old(ring.Owned()), FdsOn(HeaderCells(data, old(pos))), closed, ring.Owned())
    {
      ChainOn(data, p, starts);
      fences, closed := TakeMessage(ring);
    }

    method DrainAll(ring: Ring, arrived: nat) returns (count: nat, closed: seq<Fd>, ghost starts: seq<nat>)
      requires pos <= |data| && ring.Valid()
      modifies this`pos, this`at, this`shut, ring, ring.slots
      ensures Drained(old(pos), starts) && ring.Valid()
      ensures RingFilled(data, starts, old(ring.stores), old(ring.Owned()), count, closed, ring.stores, ring.Owned())
      ensures at == old(at) + |starts| && (old(shut) ==> starts == []) && (starts == [] ==> shut == old(shut))
      ensures shut || arrived <= at || !HeaderWhole(data, pos)
    {
      count, closed, starts := 0, [], [];
      ghost var p, a, stores, owned := pos, at, ring.stores, ring.Owned();
      while !shut && HeaderWhole(data, pos)
        invariant Drained(p, starts) && ring.Valid()
        invariant RingFilled(data, starts, stores, owned, count, closed, ring.stores, ring.Owned())
        invariant at == a + |starts| && (old(shut) ==> starts == []) && (starts == [] ==> shut == old(shut))
        decreases |data| - pos
      {
        var pending: bool :| at < arrived ==> pending;
        if !pending { break; }
        ghost var q, stores', owned' := pos, ring.stores, ring.Owned();
        var n, now := DrainOne(ring, p, starts);
        FillStep(data, starts, q, stores, owned, count, closed, stores', owned', now, ring.stores, ring.Owned());
        count, closed, starts := count + n, closed + now, starts + [q];
      }
    }

    /** poll_sync_fences as long as every header is received in full. `closed` are the descriptors it closed:
        superseded fences, re-announced pool buffers, strays. The first `arrived` headers of the connection are in the
        socket by now, so the polls report them. */
    method PollInFull(ring: Ring, arrived: nat) returns (count: nat, closed: seq<Fd>, ghost starts: seq<nat>)
      requires pos <= |data| && ring.Valid()
      modifies this`pos, this`at, this`shut, ring, ring.slots
      ensures Drained(old(pos), starts) && ring.Valid()
      ensures RingFilled(data, starts, old(ring.stores), old(ring.Owned()), count, closed, ring.stores, ring.Owned())
      ensures at == old(at) + |starts| && (old(shut) ==> starts == []) && (starts == [] ==> shut == old(shut))
      ensures shut || arrived <= at || !HeaderWhole(data, pos)
      ensures old(Synced()) && !old(shut) ==> DeliveredInStep(data, pos, shut, msgs, old(at), at, starts, arrived)
    {
      ghost var p, a, framed := pos, at, Synced();
      count, closed, starts := DrainAll(ring, arrived);
      if framed { DrainDelivers(data, p, pos, shut, msgs, a, at, starts, arrived); }
    }

    /** A pass of poll_sync_fences in which the kernel delivers only up to `most` bytes of what stands there. */
    method PollCutShort(most: nat) returns (ghost lost: seq<Fd>)
      requires pos <= |data|
      modifies this`pos
      ensures pos == CutAt(data, old(pos), most) && lost == FdsOn(data[old(pos)..pos])
    {
      lost := [];
      if pos == |data| { return; }
      var ok, bytes, fds;
      ok, bytes, fds, lost := RecvFds(HeaderSize(data[pos].byte), CutAt(data, pos, most) - pos);
    }

    /** poll_sync_fences, with the subscriber's ring as its sink: store what arrived, skip re-announced pools. In step
        with the stream it delivers exactly the fences sent; out of step it reads headers where there are none. Every
        descriptor that comes is stored or closed, but for those on a receive that the kernel ends early (`cut` says
        whether, and after how many bytes; the call ends with it): they are lost. `stop` is how far it came before. */
    method PollSyncFences(ring: Ring, arrived: nat, cut: Option<nat>)
      returns (count: nat, closed: seq<Fd>, ghost starts: seq<nat>, ghost stop: nat, ghost lost: seq<Fd>)
      requires pos <= |data| && ring.Valid()
      modifies this`pos, this`at, this`shut, ring, ring.slots
      ensures ring.Valid() && old(pos) <= stop <= pos <= |data| && Chain(data, old(pos), starts)
      ensures starts != [] ==> PastHeader(data, starts[|starts| - 1], stop)
      ensures shut || stop == EndOf(data, old(pos), starts)
      ensures RingFilled(data, starts, old(ring.stores), old(ring.Owned()), count, closed, ring.stores, ring.Owned())
      ensures at == old(at) + |starts| && (old(shut) ==> starts == []) && (starts == [] ==> shut == old(shut))
      ensures lost == FdsOn(data[stop..pos])
      ensures if cut == None || shut then pos == stop && lost == [] else pos == CutAt(data, stop, cut.value)
      ensures cut == None ==> shut || arrived <= at || !HeaderWhole(data, pos)
      ensures cut == None && old(Synced()) && !old(shut) ==>
        DeliveredInStep(data, pos, shut, msgs, old(at), at, starts, arrived)
    {
      count, closed, starts := PollInFull(ring, if cut == None then arrived else 0);
      stop, lost := pos, [];
      if cut.Some? && !shut { lost := PollCutShort(cut.value); }
    }
  }
}
