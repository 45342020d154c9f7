/** A handshake that times out inside the blob, and what a later drain makes of the rest.

    The handshake gives the descriptors up but leaves the socket open inside the message. A drain in the same situation
    cuts the connection. */
module Desync {
  import opened Machine
  import opened FenceRing
  import opened Wire
  import opened Sidecar
  import opened Subscriber
  import opened Restart

  /** A bundle without buffers, with the given blob. */
  function CutBundle(blob: seq<U8>): (m: Message)
    requires |blob| <= 8
    ensures WellFormed(m)
  {
    PoolMsg(PoolHeader(2, |blob|, WIRE_VERSION, 1, 0, 4096), [], blob)
  }

  const LATE_FENCE: Message := FenceMsg(Fence(77, 9))

  function CutLog(blob: seq<U8>): seq<Message>
    requires |blob| <= 8
  {
    [CutBundle(blob), LATE_FENCE]
  }

  function Head(blob: seq<U8>): (c: seq<Cell>)
    requires |blob| <= 8
    ensures |c| == 24
  {
    Cells(HeaderBytes(CutBundle(blob).header), [])
  }

  function Blob(blob: seq<U8>): (c: seq<Cell>)
    ensures |c| == |blob| && BytesOf(c) == blob && FdsOn(c) == []
  {
    NoFdsOn(Cells(blob, []));
    Cells(blob, [])
  }

  function Tail(): (c: seq<Cell>)
    ensures |c| == 16
  {
    Cells(FenceBytes(77), [9])
  }

  /** What the publisher writes: the bundle and then the fence. */
  function Written(blob: seq<U8>): (data: seq<Cell>)
    requires |blob| <= 8
    ensures |data| == 40 + |blob|
  {
    Head(blob) + Blob(blob) + Tail()
  }

  /** What follows the bundle's header. */
  lemma BehindHeader(blob: seq<U8>, k: nat)
    requires 0 < |blob| <= 8 && k < 16
    ensures var data, n := Written(blob), |blob|;
            && data[24..24 + n + k] == Blob(blob) + Tail()[..k] && data[24..] == Blob(blob) + Tail()
            && data[24] == Blob(blob)[0] && data[24 + n + k] == Tail()[k]
  {
  }

  lemma CutStream(blob: seq<U8>)
    requires |blob| <= 8
    ensures Framed(EncodeAll(CutLog(blob)), CutLog(blob)) && EncodeAll(CutLog(blob)) == Written(blob)
  {
    assert CutLog(blob)[1..] == [LATE_FENCE] && [LATE_FENCE][1..] == [];
    assert EncodeAll([LATE_FENCE]) == Tail() + EncodeAll([]) == Tail();
  }

  lemma CutStreamFds(blob: seq<U8>)
    requires |blob| <= 8
    ensures FdsOn(Written(blob)) == [9]
  {
    NoFdsOn(Head(blob) + Blob(blob));
    FdsOnConcat(Head(blob) + Blob(blob), Tail());
    CellsCarry(FenceBytes(77), [9]);
  }

  lemma {:induction false} LittleEndianOfZero(n: nat)
    ensures LittleEndian(0, n) == seq(n, _ => 0)
  {
    if n > 0 {
      LittleEndianOfZero(n - 1);
    }
  }

  lemma LittleEndianOfByte(b: U8)
    ensures LittleEndian(b, 8) == [b, 0, 0, 0, 0, 0, 0, 0]
  {
    LittleEndianOfZero(7);
  }

  // ------------------------------------------------------------------ a fence is misread

  /** A blob that begins like a fence message. */
  const LIKE_FENCE: seq<U8> := [2, 0, 0, 0, 0, 0, 0, 0]

  function HalfAndHalf(): (c: seq<Cell>)
    ensures |c| == 16
  {
    Blob(LIKE_FENCE) + Tail()[..8]
  }

  /** The 16 cells after the bundle's header: its blob, and the first half of the fence message. */
  lemma MisreadCells(data: seq<Cell>)
    requires data == Written(LIKE_FENCE)
    ensures HeaderWhole(data, 24) && HeaderCells(data, 24) == HalfAndHalf() && NextStart(data, 24) == 40
    ensures data[24].byte == FENCE_TAG && !HeaderWhole(data, 40)
  {
    LittleEndianOfByte(77);
    BehindHeader(LIKE_FENCE, 8);
  }

  lemma TokenOfMisread()
    ensures DecodeToken(BytesOf(HalfAndHalf())) == 2
  {
    var b := BytesOf(HalfAndHalf());
    LittleEndianOfByte(2);
    assert forall i :: 0 <= i < 8 ==> b[8..16][i] == b[8 + i] == FenceBytes(77)[i];
    assert b[8..16] == [2, 0, 0, 0, 0, 0, 0, 0];
    PowersOf256();
    LittleEndianRoundTrip(2, 8);
  }

  lemma FdsOfMisread()
    ensures FdsOn(HalfAndHalf()) == [9]
  {
    var half := Tail()[..8];
    assert half[0].fds == [9];
    NoFdsOn(half[1..]);
    FdsOnConcat(Blob(LIKE_FENCE), half);
    assert FdsOn(half) == [9] + [] == [9];
  }

  /** Read as a fence they are token 2 with the late fence's descriptor. */
  lemma Misread(data: seq<Cell>)
    requires data == Written(LIKE_FENCE)
    ensures HeaderWhole(data, 24) && FenceRead(data, 24) == [Fence(2, 9)]
  {
    MisreadCells(data);
    var c := HeaderCells(data, 24);
    assert c == HalfAndHalf();
    FdsOfMisread();
    TokenOfMisread();
    assert FdsOn(c) == [9] && DecodeToken(BytesOf(c)) == 2;
  }

  lemma SecondHeader(data: seq<Cell>, p: nat, starts: seq<nat>)
    requires Chain(data, p, starts) && |starts| > 1
    ensures HeaderWhole(data, p) && HeaderWhole(data, NextStart(data, p))
  {
    assert Link(data, starts, 0) && starts[0] in starts && starts[1] in starts;
  }

  /** A drain from there can take one header only. */
  lemma OnlyOneHeader(data: seq<Cell>, starts: seq<nat>)
    requires data == Written(LIKE_FENCE) && Chain(data, 24, starts)
    ensures |starts| <= 1 && (starts != [] ==> FencesRead(data, starts) == [Fence(2, 9)])
    ensures HeaderWhole(data, 24)
  {
    MisreadCells(data);
    Misread(data);
    if |starts| > 1 {
      SecondHeader(data, 24, starts);
    } else if |starts| == 1 {
      assert starts == [24] && [24][..0] == [];
    }
  }

  /** The handshake receives the header and then waits in vain for the blob. */
  method CutHandshake(blob: seq<U8>) returns (s: TensorSubscriber, rc: int)
    requires 0 < |blob| <= 8
    ensures fresh(s) && fresh(s.client) && fresh(s.fences) && fresh(s.fences.slots) && s.Valid() && rc == -1
    ensures s.client.data == Written(blob) && s.client.pos == 24 && s.client.at == 1 && !s.client.shut
    ensures s.fences.stores == [] && s.book.lost == multiset{}
  {
    s := new TensorSubscriber(Build(false, false, 0));
    var log := CutLog(blob);
    CutStream(blob);
    CutStreamFds(blob);
    OnePublishIsHistory(Numbered(1));
    rc := s.WaitHandshake(EncodeAll(log), log, Network(true, true, 0), true, OnePublish(Numbered(1)), 23, true, false);
  }

  lemma DrainTakesIt(data: seq<Cell>, starts: seq<nat>, pos: nat, shut: bool)
    requires data == Written(LIKE_FENCE) && Chain(data, 24, starts) && (shut || pos == EndOf(data, 24, starts))
    requires starts == [] ==> !shut && !HeaderWhole(data, pos)
    ensures FencesRead(data, starts) == [Fence(2, 9)]
  {
    OnlyOneHeader(data, starts);
  }

  lemma CutFences(blob: seq<U8>)
    requires |blob| <= 8
    ensures FencesOf(CutLog(blob)) == [Fence(77, 9)]
  {
    var log := CutLog(blob);
    assert log[..1] == [CutBundle(blob)] && log[..1][..0] == [];
    assert FencesOf(log[..1]) == [];
  }

  method DrainMisread(s: TensorSubscriber)
    requires s.Conserving() && s.Linked() && s.client.data == Written(LIKE_FENCE) && s.client.pos == 24
    requires s.client.at == 1 && !s.client.shut && s.fences.stores == []
    modifies s.client`pos, s.client`at, s.client`shut, s`book, s.fences, s.fences.slots
    ensures s.Conserving() && s.Linked() && s.fences.stores == [Fence(2, 9)] && s.book.lost == old(s.book.lost)
  {
    var count;
    ghost var starts, stop;
    count, starts, stop := s.DrainFences(2, None);
    DrainTakesIt(s.client.data, starts, s.client.pos, s.client.shut);
  }

  /** Later the blob and a fence arrive, and the subscriber drains: half of the fence taken for the end of a header,
      it is stored under a token nobody sent. No descriptor is lost in this run. */
  method DrainAfterCut() returns (s: TensorSubscriber)
    ensures FencesOf(CutLog(LIKE_FENCE)) == [Fence(77, 9)] && s.fences.stores == [Fence(2, 9)]
    ensures s.Conserving() && s.Linked() && s.book.lost == multiset{}
  {
    var rc;
    s, rc := CutHandshake(LIKE_FENCE);
    DrainMisread(s);
    CutFences(LIKE_FENCE);
  }

  // ------------------------------------------------------------------ a descriptor is lost

  /** Too short for what a drain takes for a header, even with the whole fence message behind it. */
  const TOO_SHORT: seq<U8> := [0, 0, 0, 0, 0]

  /** What is left after the bundle's header does not make a header, and brings the fence's descriptor. */
  lemma RestIsNoHeader(data: seq<Cell>)
    requires data == Written(TOO_SHORT)
    ensures !HeaderWhole(data, 24) && data[24].byte != FENCE_TAG && FdsOn(data[24..]) == [9]
  {
    BehindHeader(TOO_SHORT, 0);
    FdsOnConcat(Blob(TOO_SHORT), Tail());
    CellsCarry(FenceBytes(77), [9]);
  }

  lemma NothingInFull(data: seq<Cell>, starts: seq<nat>)
    requires data == Written(TOO_SHORT) && Chain(data, 24, starts)
    ensures starts == []
  {
    if starts != [] {
      assert starts[0] in starts;
      RestIsNoHeader(data);
    }
  }

  lemma DrainLosesIt(data: seq<Cell>, starts: seq<nat>, stop: nat, pos: nat, shut: bool)
    requires data == Written(TOO_SHORT) && Chain(data, 24, starts) && (shut || stop == EndOf(data, 24, starts))
    requires stop <= |data| && pos == if shut then stop else CutAt(data, stop, 21)
    requires starts == [] ==> !shut
    ensures starts == [] && !shut && pos == |data| && FdsOn(data[stop..pos]) == [9]
  {
    NothingInFull(data, starts);
    RestIsNoHeader(data);
    assert data[24..] == data[24..45];
  }

  method DrainTheRest(s: TensorSubscriber)
    requires s.Conserving() && s.Linked() && s.client.data == Written(TOO_SHORT) && s.client.pos == 24
    requires !s.client.shut && s.fences.stores == []
    modifies s.client`pos, s.client`at, s.client`shut, s`book, s.fences, s.fences.slots
    ensures s.Conserving() && s.Linked() && s.client.pos == |s.client.data| && s.fences.stores == []
    ensures s.book.lost == old(s.book.lost) + multiset([9])
  {
    var count;
    ghost var starts, stop;
    count, starts, stop := s.DrainFences(2, Some(21));
    DrainLosesIt(s.client.data, starts, stop, s.client.pos, s.client.shut);
  }

  /** Later everything arrives, and the subscriber drains: the kernel delivers all 21 bytes that are left, the drain
      asked for 24, and the fence's descriptor is neither stored nor ever closed. */
  method LeakAfterCut() returns (s: TensorSubscriber)
    ensures FencesOf(CutLog(TOO_SHORT)) == [Fence(77, 9)] && s.client.pos == |s.client.data|
    ensures s.fences.stores == [] && s.book.lost == multiset{9} && 9 !in s.book.closed
    ensures s.Conserving() && s.Linked()
  {
    var rc;
    s, rc := CutHandshake(TOO_SHORT);
    DrainTheRest(s);
    s.EachFdInOnePlace();
    CutFences(TOO_SHORT);
  }
}
