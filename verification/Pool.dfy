/** TensorPool: which buffers are handed out, and what retirement does to them. */
module Pool {
  import opened Machine
  import opened FenceRing
  import opened Wire

  /** page_round_up on 64-bit sizes; `page` is what the system says, a power of two, for which clearing the low bits is
      subtracting the remainder. */
  function PageRoundUp(n: U64, page: U64): U64
    requires page > 0
  {
    var s := Wrap64(n + page - 1);
    s - s % page
  }

  lemma Scaled(page: nat, d: int)
    ensures d >= 1 ==> page * d >= page
    ensures d <= -1 ==> page * d + page <= 0
  {
    if d >= 1 {
      assert page * (d - 1) >= 0;
      assert page * d == page * (d - 1) + page;
    } else if d <= -1 {
      assert page * (-1 - d) >= 0;
      assert page * d == -(page * (-1 - d)) - page;
    }
  }

  lemma WholePages(s: nat, page: nat)
    requires page > 0
    ensures (s - s % page) % page == 0
  {
    var x := s - s % page;
    var k, q, r := s / page, x / page, x % page;
    assert x == page * k && x == page * q + r;
    assert r == page * (k - q);
    Scaled(page, k - q);
  }

  lemma SmallRemainder(s: nat, page: nat)
    requires s < page
    ensures s % page == s
  {
  }

  /** The smallest whole number of pages that holds n bytes, except within a page of 2^64, where it comes out 0. */
  lemma PageRoundUpFits(n: U64, page: U64)
    requires page > 0
    ensures PageRoundUp(n, page) % page == 0
    ensures n <= PageRoundUp(n, page) < n + page <==> n <= TWO_64 - page
    ensures n > TWO_64 - page ==> PageRoundUp(n, page) == 0
  {
    var s := Wrap64(n + page - 1);
    WholePages(s, page);
    if n > TWO_64 - page {
      assert s == n + page - 1 - TWO_64 < page;
      SmallRemainder(s, page);
    }
  }

  // ------------------------------------------------------------------ free slots

  /** What acquiring and releasing work on. */
  datatype Slots = Slots(inUse: seq<bool>, head: nat)

  predicate Sound(s: Slots) { s.inUse == [] || s.head < |s.inUse| }

  predicate IsFree(s: Slots, j: nat) { j < |s.inUse| && !s.inUse[j] }

  function FreeSet(s: Slots): (free: set<nat>)
    ensures forall j: nat :: j in free <==> IsFree(s, j)
  {
    set j: nat | j < |s.inUse| && !s.inUse[j]
  }

  /** How many slots the search starting at `head` passes before slot j. */
  function Distance(s: Slots, j: nat): (d: nat)
    requires Sound(s) && j < |s.inUse|
    ensures d < |s.inUse|
  {
    if j >= s.head then j - s.head else j + |s.inUse| - s.head
  }

  /** acquire_next as a step: it takes the free slot nearest behind the head, or reports that there is none. */
  ghost predicate Acquires(s: Slots, s': Slots, r: int)
  {
    && Sound(s)
    && (r == -1 <==> FreeSet(s) == {})
    && (r == -1 ==> s' == s)
    && (r != -1 ==>
          && r >= 0 && r in FreeSet(s)
          && (forall j :: j in FreeSet(s) ==> Distance(s, r) <= Distance(s, j))
          && s' == Slots(s.inUse[r := true], if r + 1 < |s.inUse| then r + 1 else 0))
  }

  /** release as a step: an index that names no slot is ignored. */
  ghost predicate Releases(s: Slots, s': Slots, index: int)
  {
    && Sound(s)
    && s' == if 0 <= index < |s.inUse| then s.(inUse := s.inUse[index := false]) else s
  }

  /** On the set of free slots the two are taking an element out and putting one in. */
  lemma StepsOnFreeSet(s: Slots, s': Slots, i: int)
    ensures Acquires(s, s', i) && i != -1 ==> i in FreeSet(s) && FreeSet(s') == FreeSet(s) - {i} && Sound(s')
    ensures Releases(s, s', i) && 0 <= i < |s.inUse| ==> FreeSet(s') == FreeSet(s) + {i} && Sound(s')
    ensures Releases(s, s', i) && !(0 <= i < |s.inUse|) ==> s' == s
  {
  }

  datatype Event = Acquired(r: int) | Released(index: int)

  ghost predicate EventAt(h: seq<Slots>, events: seq<Event>, i: nat)
    requires i < |events| && i + 1 < |h|
  {
    match events[i]
    case Acquired(r) => Acquires(h[i], h[i + 1], r)
    case Released(index) => Releases(h[i], h[i + 1], index)
  }

  /** Any interleaving of acquires and releases, between two retirements. */
  ghost predicate History(h: seq<Slots>, events: seq<Event>)
  {
    |h| == |events| + 1 && Sound(h[0]) && forall i: nat :: i < |events| ==> EventAt(h, events, i)
  }

  function AcquireCount(events: seq<Event>): (n: nat)
  {
    if events == [] then 0
    else AcquireCount(events[..|events| - 1]) + if events[|events| - 1].Acquired? then 1 else 0
  }

  lemma PassStep(s: Slots, s': Slots, e: Event, j: nat)
    requires Sound(s) && IsFree(s, j) && e != Acquired(j)
    requires if e.Acquired? then Acquires(s, s', e.r) else Releases(s, s', e.index)
    ensures Sound(s') && IsFree(s', j) && |s'.inUse| == |s.inUse|
    ensures Distance(s', j) + (if e.Acquired? then 1 else 0) <= Distance(s, j)
  {
    assert j in FreeSet(s);
  }

  /** No starvation, as a measure: every acquire that passes over a free slot brings its turn at least one nearer. */
  lemma {:induction false} PassedOverMovesUp(h: seq<Slots>, events: seq<Event>, j: nat)
    requires History(h, events) && IsFree(h[0], j) && Acquired(j) !in events
    ensures var e := h[|events|]; Sound(e) && IsFree(e, j) && |e.inUse| == |h[0].inUse|
    ensures AcquireCount(events) + Distance(h[|events|], j) <= Distance(h[0], j)
  {
    if events != [] {
      var n := |events| - 1;
      forall i: nat | i < n ensures EventAt(h[..|events|], events[..n], i) {
        assert EventAt(h, events, i);
      }
      PassedOverMovesUp(h[..|events|], events[..n], j);
      assert EventAt(h, events, n);
      assert events[n] in events;
      PassStep(h[n], h[n + 1], events[n], j);
    }
  }

  /** A slot that stays free is handed out within its cyclic distance plus one acquires, so within n of them. */
  lemma FreeSlotIsHandedOut(h: seq<Slots>, events: seq<Event>, j: nat)
    requires History(h, events) && IsFree(h[0], j) && AcquireCount(events) > Distance(h[0], j)
    ensures Acquired(j) in events
    ensures Distance(h[0], j) + 1 <= |h[0].inUse|
  {
    if Acquired(j) !in events {
      PassedOverMovesUp(h, events, j);
    }
  }

  /** The two uses of % in acquire_next. */
  lemma Turn(head: nat, k: nat, n: nat)
    requires head < n && k < n
    ensures var i := (head + k) % n;
            && i == (if head + k < n then head + k else head + k - n)
            && (i + 1) % n == if i + 1 < n then i + 1 else 0
  {
    assert head + k < 2 * n;
    if head + k >= n {
      assert head + k == n + (head + k - n);
    }
  }

  // ------------------------------------------------------------------ the class

  /** shareFd goes to consumers; backingFd keeps a UDMABUF buffer's memory alive, and is -1 otherwise. */
  datatype Buffer = Buffer(shareFd: Fd, backingFd: int)

  function FdsOfBuffers(bs: seq<Buffer>): (fds: seq<Fd>)
    ensures |fds| == |bs| && forall i :: 0 <= i < |bs| ==> fds[i] == bs[i].shareFd
  {
    seq(|bs|, i requires 0 <= i < |bs| => bs[i].shareFd)
  }

  /** Every descriptor some buffers hold, in order. */
  function OpenFds(bs: seq<Buffer>): (fds: seq<Fd>)
  {
    if bs == [] then []
    else
      var n := |bs| - 1;
      OpenFds(bs[..n]) + [bs[n].shareFd] + if bs[n].backingFd >= 0 then [bs[n].backingFd] else []
  }

  /** What the kernel or the driver grants an allocation: how many buffers; for a capture device its descriptor, if it
      opens; for surfaces their size and whether their import parameters can be had. */
  datatype Grant = Grant(buffers: nat, device: Option<Fd>, surface: U64, params: bool) {
    predicate Suffices(n: U64, backend: U8)
    {
      n <= buffers && (backend == V4L2 ==> device.Some?) && (backend == NVBUF_SURFACE ==> params)
    }

    /** The buffer size after the allocation, if it was `asked` before. */
    function SizeOr(asked: U64, n: U64, backend: U8, page: U64): U64
      requires page > 0
    {
      if backend == NVBUF_SURFACE && n <= buffers then PageRoundUp(surface, page) else asked
    }
  }

  class TensorPool {
    const nBuffers: U64
    const backend: U8
    const page: U64

    var bufferSize: U64
    var generation: nat
    var buffers: seq<Buffer>
    var shareFds: seq<Fd>
    var importParams: seq<U8>
    var inUse: seq<bool>
    var ringHead: nat
    var device: Option<Fd>     // the open capture device, for V4L2

    ghost predicate Valid()
      reads this
    {
      && page > 0 && |inUse| == |buffers| && shareFds == FdsOfBuffers(buffers)
      && (buffers == [] || (|buffers| == nBuffers && ringHead < nBuffers))
    }

    ghost function View(): Slots
      reads this`inUse, this`ringHead
    {
      Slots(inUse, ringHead)
    }

    ghost predicate AllFree()
      reads this`inUse
    {
      |inUse| == nBuffers && forall j :: 0 <= j < nBuffers ==> !inUse[j]
    }

    /** Every descriptor the pool has open. */
    function Open(): (fds: seq<Fd>)
      reads this`buffers, this`device
    {
      OpenFds(buffers) + if device.Some? then [device.value] else []
    }

    /** free_all: every descriptor the pool opened is closed; ringHead keeps its value. */
    method FreeAll() returns (closed: seq<Fd>)
      modifies this`buffers, this`shareFds, this`inUse, this`importParams, this`device
      ensures buffers == [] && shareFds == [] && inUse == [] && importParams == [] && device == None
      ensures closed == old(Open())
    {
      closed := [];
      for i := 0 to |buffers|
        invariant closed == OpenFds(buffers[..i])
        invariant buffers == old(buffers)
      {
        assert buffers[..i + 1][..i] == buffers[..i];
        closed := closed + [buffers[i].shareFd];
        if buffers[i].backingFd >= 0 {
          closed := closed + [buffers[i].backingFd];
        }
      }
      assert buffers[..|buffers|] == buffers;
      buffers, shareFds, inUse, importParams := [], [], [], [];
      if device.Some? { closed := closed + [device.value]; }
      device := None;
    }

    /** allocate: all the configured buffers, or none; what was opened on the way to a failure is closed again. Surfaces
        bring their own size, even if it then fails for lack of their parameters. */
    method Allocate(grant: Grant) returns (ok: bool)
      requires page > 0 && buffers == [] && shareFds == [] && inUse == [] && importParams == [] && device == None
      modifies this`buffers, this`shareFds, this`inUse, this`importParams, this`ringHead, this`bufferSize, this`device
      ensures Valid() && (ok <==> grant.Suffices(nBuffers, backend))
      ensures ok ==> |buffers| == nBuffers && ringHead == 0 && AllFree()
      ensures !ok ==> buffers == [] && device == None && ringHead == old(ringHead)
      ensures ok ==> device == if backend == V4L2 then grant.device else None
      ensures bufferSize == grant.SizeOr(old(bufferSize), nBuffers, backend, page)
    {
      ok := true;
      if backend == V4L2 {
        if grant.device == None { return false; }
        device := grant.device;
      }
      var made := [];
      for i := 0 to nBuffers
        invariant |made| == i <= grant.buffers
      {
        if i == grant.buffers { ok := false; break; }
        var fd: nat, backing: int := *, *;
        made := made + [Buffer(fd, backing)];
      }
      buffers := made;
      var blob: seq<U8> := [];
      if ok && backend == NVBUF_SURFACE {
        bufferSize := PageRoundUp(grant.surface, page);
        ok := grant.params;
        blob := *;
      }
      if !ok {
        var closed := FreeAll();
        return;
      }
      inUse, ringHead, shareFds, importParams := seq(|buffers|, _ => false), 0, FdsOfBuffers(buffers), blob;
    }

    /** create. */
    constructor (n: U64, size: U64, kind: U8, pageSize: U64, grant: Grant)
      requires pageSize > 0
      ensures Valid() && generation == 1 && nBuffers == n && backend == kind && page == pageSize
      ensures |buffers| == if grant.Suffices(n, kind) then n else 0
      ensures buffers != [] ==> AllFree()
      ensures bufferSize == grant.SizeOr(PageRoundUp(size, pageSize), n, kind, pageSize)
    {
      nBuffers, backend, page, generation, bufferSize := n, kind, pageSize, 1, PageRoundUp(size, pageSize);
      buffers, shareFds, importParams, inUse, ringHead, device := [], [], [], [], 0, None;
      new;
      var ok := Allocate(grant);
    }

    method AcquireNext() returns (r: int)
      requires Valid()
      modifies this`inUse, this`ringHead
      ensures Valid() && Acquires(old(View()), View(), r)
    {
      var n := |buffers|;
      for k := 0 to n
        invariant inUse == old(inUse) && ringHead == old(ringHead)
        invariant forall j: nat :: j < n && Distance(View(), j) < k ==> inUse[j]
      {
        var idx := (ringHead + k) % n;
        Turn(ringHead, k, n);
        if !inUse[idx] {
          assert idx in FreeSet(View()) && Distance(View(), idx) == k;
          inUse := inUse[idx := true];
          ringHead := (idx + 1) % n;
          return idx;
        }
      }
      assert forall j: nat :: j < n ==> Distance(View(), j) < n;
      return -1;
    }

    method Release(index: int)
      requires Valid()
      modifies this`inUse
      ensures Valid() && Releases(old(View()), View(), index)
    {
      if index >= 0 && index < |inUse| {
        inUse := inUse[index := false];
      }
    }

    /** retire_and_reallocate: everything is free again, or gone if the allocation fails; either way the generation
        goes up by one, so no descriptor of the old pool is taken for one of the new. */
    method RetireAndReallocate(newSize: U64, grant: Grant) returns (closed: seq<Fd>)
      requires Valid()
      modifies this
      ensures Valid() && generation == old(generation) + 1
      ensures bufferSize == grant.SizeOr(PageRoundUp(newSize, page), nBuffers, backend, page)
      ensures closed == old(Open())
      ensures |buffers| == if grant.Suffices(nBuffers, backend) then nBuffers else 0
      ensures buffers != [] ==> AllFree() && ringHead == 0
    {
      closed := FreeAll();
      bufferSize := PageRoundUp(newSize, page);
      generation := generation + 1;
      var ok := Allocate(grant);
    }
  }
}
