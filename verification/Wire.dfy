/** The messages of the descriptor plane and the byte stream they make. */
module Wire {
  import opened Machine
  import opened FenceRing

  const POOL_TAG: U8 := 1
  const FENCE_TAG: U8 := 2
  const MAX_FDS := 32          // kMaxSidecarFds
  const MAX_EXT := 65535       // kMaxHandshakeExt
  const WIRE_VERSION: U32 := 4
  const V4L2: U8 := 0          // of the pool backends, those that behave differently here
  const ACCELERATOR: U8 := 3
  const NVBUF_SURFACE: U8 := 4

  /** PoolHandshakeHeader without its tag byte. */
  datatype PoolHeader = PoolHeader(
    backend: U8, extLen: U16, wireVersion: U32, generation: U32, nBuffers: U32, bufferSize: U64)

  datatype Message =
    | PoolMsg(header: PoolHeader, fds: seq<Fd>, blob: seq<U8>)
    | FenceMsg(fence: Fence)

  predicate WellFormed(m: Message)
  {
    m.PoolMsg? ==> m.header.extLen == |m.blob| && |m.fds| <= MAX_FDS
  }

  function HeaderBytes(h: PoolHeader): (b: seq<U8>)
    ensures |b| == 24 && b[0] == POOL_TAG
  {
    [POOL_TAG, h.backend] + LittleEndian(h.extLen, 2) + LittleEndian(h.wireVersion, 4)
    + LittleEndian(h.generation, 4) + LittleEndian(h.nBuffers, 4) + LittleEndian(h.bufferSize, 8)
  }

  lemma PowersOf256()
    ensures Pow256(2) == TWO_16 && Pow256(4) == TWO_32 && Pow256(8) == TWO_64
  {
  }

  function Clip(s: seq<U8>, n: nat): (v: nat)
    requires |s| == n
    ensures v < Pow256(n)
    ensures n == 2 ==> v < TWO_16
    ensures n == 4 ==> v < TWO_32
    ensures n == 8 ==> v < TWO_64
  {
    FromLittleEndianBound(s);
    PowersOf256();
    FromLittleEndian(s)
  }

  function DecodeHeader(b: seq<U8>): PoolHeader
    requires |b| == 24
  {
    PoolHeader(b[1], Clip(b[2..4], 2) as U16, Clip(b[4..8], 4) as U32, Clip(b[8..12], 4) as U32,
               Clip(b[12..16], 4) as U32, Clip(b[16..24], 8) as U64)
  }

  /** Cutting a concatenation at the seams. */
  lemma Slices(a: seq<U8>, b: seq<U8>, c: seq<U8>, d: seq<U8>, e: seq<U8>, f: seq<U8>)
    requires |a| == 2 && |b| == 2 && |c| == 4 && |d| == 4 && |e| == 4 && |f| == 8
    ensures var s := a + b + c + d + e + f;
            s[..2] == a && s[2..4] == b && s[4..8] == c && s[8..12] == d && s[12..16] == e && s[16..24] == f
  {
  }

  lemma HeaderRoundTrip(h: PoolHeader)
    ensures DecodeHeader(HeaderBytes(h)) == h
  {
    var a, b, c := [POOL_TAG, h.backend], LittleEndian(h.extLen, 2), LittleEndian(h.wireVersion, 4);
    var d, e, f := LittleEndian(h.generation, 4), LittleEndian(h.nBuffers, 4), LittleEndian(h.bufferSize, 8);
    Slices(a, b, c, d, e, f);
    assert HeaderBytes(h) == a + b + c + d + e + f;
    assert HeaderBytes(h)[..2][1] == h.backend;
    PowersOf256();
    LittleEndianRoundTrip(h.extLen, 2);
    LittleEndianRoundTrip(h.wireVersion, 4);
    LittleEndianRoundTrip(h.generation, 4);
    LittleEndianRoundTrip(h.nBuffers, 4);
    LittleEndianRoundTrip(h.bufferSize, 8);
  }

  function FenceBytes(token: U64): (b: seq<U8>)
    ensures |b| == 16 && b[0] == FENCE_TAG
  {
    [FENCE_TAG, 0, 0, 0, 0, 0, 0, 0] + LittleEndian(token, 8)
  }

  function DecodeToken(b: seq<U8>): U64
    requires |b| == 16
  {
    Clip(b[8..16], 8) as U64
  }

  lemma TokenRoundTrip(token: U64)
    ensures DecodeToken(FenceBytes(token)) == token
  {
    assert Pow256(8) == TWO_64;
    LittleEndianRoundTrip(token, 8);
    assert FenceBytes(token)[8..16] == LittleEndian(token, 8);
  }

  // ------------------------------------------------------------------ stream

  /** One byte of a connection, with the descriptors that travel on it. */
  datatype Cell = Cell(byte: U8, fds: seq<Fd>)

  /** What one sendmsg puts on the stream: the descriptors ride on its first byte. */
  function Cells(bytes: seq<U8>, fds: seq<Fd>): (c: seq<Cell>)
    ensures |c| == |bytes|
  {
    seq(|bytes|, i requires 0 <= i < |bytes| => Cell(bytes[i], if i == 0 then fds else []))
  }

  function BytesOf(c: seq<Cell>): (b: seq<U8>)
    ensures |b| == |c|
  {
    seq(|c|, i requires 0 <= i < |c| => c[i].byte)
  }

  function FdsOn(c: seq<Cell>): (fds: seq<Fd>)
  {
    if c == [] then [] else c[0].fds + FdsOn(c[1..])
  }

  lemma {:induction false} NoFdsOn(c: seq<Cell>)
    requires forall i :: 0 <= i < |c| ==> c[i].fds == []
    ensures FdsOn(c) == []
  {
    if c != [] {
      NoFdsOn(c[1..]);
    }
  }

  lemma {:induction false} FdsOnConcat(a: seq<Cell>, b: seq<Cell>)
    ensures FdsOn(a + b) == FdsOn(a) + FdsOn(b)
  {
    if a == [] {
      assert a + b == b;
    } else {
      assert (a + b)[0] == a[0] && (a + b)[1..] == a[1..] + b;
      FdsOnConcat(a[1..], b);
    }
  }

  lemma CellsCarry(bytes: seq<U8>, fds: seq<Fd>)
    requires bytes != []
    ensures BytesOf(Cells(bytes, fds)) == bytes && FdsOn(Cells(bytes, fds)) == fds
  {
    NoFdsOn(Cells(bytes, fds)[1..]);
  }

  function Encode(m: Message): (c: seq<Cell>)
    ensures |c| >= 16 && c[0].byte == if m.PoolMsg? then POOL_TAG else FENCE_TAG
  {
    match m
    case PoolMsg(h, fds, blob) => Cells(HeaderBytes(h), fds) + Cells(blob, [])
    case FenceMsg(f) => Cells(FenceBytes(f.token), [f.fd])
  }

  function EncodeAll(ms: seq<Message>): (c: seq<Cell>)
    ensures |ms| > 0 ==> |c| > 0
  {
    if ms == [] then [] else Encode(ms[0]) + EncodeAll(ms[1..])
  }

  lemma {:induction false} EncodeAllAppend(ms: seq<Message>, m: Message)
    ensures EncodeAll(ms + [m]) == EncodeAll(ms) + Encode(m)
  {
    if ms == [] {
      assert EncodeAll([m]) == Encode(m) + EncodeAll([]);
    } else {
      EncodeAllAppend(ms[1..], m);
      assert (ms + [m])[0] == ms[0] && (ms + [m])[1..] == ms[1..] + [m];
      var a, b, c := Encode(ms[0]), EncodeAll(ms[1..]), Encode(m);
      assert a + (b + c) == (a + b) + c;
    }
  }

  function FenceIn(m: Message): seq<Fence> { if m.FenceMsg? then [m.fence] else [] }

  /** The fences among some messages, in order. */
  function FencesOf(ms: seq<Message>): (fences: seq<Fence>)
  {
    if ms == [] then []
    else
      var n := |ms| - 1;
      FencesOf(ms[..n]) + FenceIn(ms[n])
  }

  function FdsIn(m: Message): seq<Fd>
  {
    match m
    case PoolMsg(_, fds, _) => fds
    case FenceMsg(f) => [f.fd]
  }

  // ------------------------------------------------------------------ what stands at a message boundary

  lemma PoolAtHead(rest: seq<Cell>, ms: seq<Message>)
    requires ms != [] && rest == EncodeAll(ms) && ms[0].PoolMsg? && WellFormed(ms[0])
    ensures var m := ms[0]; var n := |m.blob|;
            && |rest| >= 24 + n
            && BytesOf(rest[..24]) == HeaderBytes(m.header) && FdsOn(rest[..24]) == m.fds
            && BytesOf(rest[24..24 + n]) == m.blob && FdsOn(rest[24..24 + n]) == []
            && rest[24 + n..] == EncodeAll(ms[1..])
  {
    var m := ms[0];
    var head, tail := Cells(HeaderBytes(m.header), m.fds), Cells(m.blob, []);
    CellsCarry(HeaderBytes(m.header), m.fds);
    NoFdsOn(tail);
    assert rest == head + tail + EncodeAll(ms[1..]);
    assert rest[..24] == head && rest[24..24 + |m.blob|] == tail;
    assert BytesOf(tail) == m.blob;
  }

  lemma FenceAtHead(rest: seq<Cell>, ms: seq<Message>)
    requires ms != [] && rest == EncodeAll(ms) && ms[0].FenceMsg?
    ensures var f := ms[0].fence;
            && |rest| >= 16
            && BytesOf(rest[..16]) == FenceBytes(f.token) && FdsOn(rest[..16]) == [f.fd]
            && rest[16..] == EncodeAll(ms[1..])
  {
    var f := ms[0].fence;
    var head := Cells(FenceBytes(f.token), [f.fd]);
    CellsCarry(FenceBytes(f.token), [f.fd]);
    assert rest[..16] == head;
  }
}
