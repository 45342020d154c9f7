/** The subscriber's cache of sync-fence descriptors: a ring of 16 slots that evicts the oldest. */
module FenceRing {
  import opened Machine

  type Fd = nat

  datatype Fence = Fence(token: U64, fd: Fd)
  datatype FenceSlot = FenceSlot(token: U64, fd: int)

  /** The last 16 of a sequence of stores. */
  function LastStores(stores: seq<Fence>): (live: seq<Fence>)
  {
    if |stores| <= 16 then stores else stores[|stores| - 16..]
  }

  ghost predicate DistinctTokens(fences: seq<Fence>)
  {
    forall i, j :: 0 <= i < j < |fences| ==> fences[i].token != fences[j].token
  }

  function FdsOf(fences: seq<Fence>): (fds: seq<Fd>)
    ensures |fds| == |fences| && forall i :: 0 <= i < |fds| ==> fds[i] == fences[i].fd
  {
    seq(|fences|, i requires 0 <= i < |fences| => fences[i].fd)
  }

  function SlotFor(f: Fence): FenceSlot { FenceSlot(f.token, f.fd) }

  /** The ring after the given stores: store i sits in slot i mod 16 until store i + 16 replaces it. */
  ghost predicate Represents(slots: seq<FenceSlot>, stores: seq<Fence>)
  {
    && |slots| == 16
    && (forall i :: 0 <= i < |stores| && |stores| - 16 <= i ==> slots[i % 16] == SlotFor(stores[i]))
    && (forall j :: |stores| <= j < 16 ==> slots[j].fd < 0)
  }

  lemma StoreKeepsRepresents(slots: seq<FenceSlot>, stores: seq<Fence>, next: nat, f: Fence)
    requires Represents(slots, stores) && next == |stores| % 16
    ensures Represents(slots[next := SlotFor(f)], stores + [f])
  {
  }

  /** The slot the next store uses is free, or holds the oldest live fence. */
  lemma NextSlot(slots: seq<FenceSlot>, stores: seq<Fence>)
    requires Represents(slots, stores)
    ensures |stores| < 16 ==> slots[|stores| % 16].fd < 0
    ensures |stores| >= 16 ==> slots[|stores| % 16] == SlotFor(stores[|stores| - 16])
  {
    if |stores| >= 16 {
      assert slots[(|stores| - 16) % 16] == SlotFor(stores[|stores| - 16]);
    }
  }

  /** A store adds one live descriptor and, once the ring is full, drops the oldest. */
  lemma LiveAfterStore(stores: seq<Fence>, f: Fence)
    ensures |stores| < 16 ==> FdsOf(LastStores(stores + [f])) == FdsOf(LastStores(stores)) + [f.fd]
    ensures |stores| >= 16 ==>
      [stores[|stores| - 16].fd] + FdsOf(LastStores(stores + [f])) == FdsOf(LastStores(stores)) + [f.fd]
  {
  }

  /** Slot j, when in use, holds the newest store with index congruent to j. */
  function StoreIn(n: nat, j: nat): (i: int)
    requires j < 16
    ensures (if n < 16 then j else n - 16) <= i && (j < n ==> i < n) && i % 16 == j
  {
    if n < 16 then j
    else
      var r := n % 16;
      if j < r then n - r + j else n - 16 - r + j
  }

  lemma SlotHolds(slots: seq<FenceSlot>, stores: seq<Fence>, j: nat)
    requires Represents(slots, stores) && j < 16
    ensures slots[j].fd >= 0 <==> j < |stores|
    ensures j < |stores| ==> slots[j] == SlotFor(stores[StoreIn(|stores|, j)])
  {
    var i := StoreIn(|stores|, j);
    if j < |stores| {
      assert slots[i % 16] == SlotFor(stores[i]);
    }
  }

  /** Rotating a sequence keeps its elements. */
  lemma Rotated(s: seq<Fd>, t: seq<Fd>, r: nat)
    requires |s| == |t| && r <= |s| && s[r..] == t[..|s| - r] && s[..r] == t[|s| - r..]
    ensures multiset(s) == multiset(t)
  {
    assert s == s[..r] + s[r..] && t == t[..|s| - r] + t[|s| - r..];
  }

  /** Where the descriptor of slot j stands among the live ones, once the ring has turned by r. */
  lemma LivePlace(slots: seq<FenceSlot>, stores: seq<Fence>, j: nat)
    requires Represents(slots, stores) && j < 16 && j < |stores|
    ensures var r := if |stores| < 16 then 0 else |stores| % 16;
            slots[j].fd == FdsOf(LastStores(stores))[if j < r then 16 - r + j else j - r]
  {
    SlotHolds(slots, stores, j);
  }

  /** Closing the used slots in slot order closes exactly the live descriptors. */
  lemma SlotOrderIsLive(slots: seq<FenceSlot>, stores: seq<Fence>, closed: seq<Fd>)
    requires Represents(slots, stores)
    requires |closed| == (if |stores| < 16 then |stores| else 16)
    requires forall j :: 0 <= j < |closed| ==> closed[j] == slots[j].fd
    ensures multiset(closed) == multiset(FdsOf(LastStores(stores)))
  {
    var live := FdsOf(LastStores(stores));
    var r := if |stores| < 16 then 0 else |stores| % 16;
    forall j | 0 <= j < |closed| ensures closed[j] == if j < r then live[16 - r + j] else live[j - r] {
      LivePlace(slots, stores, j);
    }
    assert closed[r..] == live[..|closed| - r] && closed[..r] == live[|closed| - r..];
    Rotated(closed, live, r);
  }

  class Ring {
    const slots: array<FenceSlot>
    var next: nat
    ghost var stores: seq<Fence>  // everything stored since the last clear

    ghost predicate Valid()
      reads this, slots
    {
      slots.Length == 16 && next == |stores| % 16 && Represents(slots[..], stores)
    }

    /** The descriptors the ring owns. */
    ghost function Owned(): seq<Fd>
      reads this
    {
      FdsOf(LastStores(stores))
    }

    constructor ()
      ensures Valid() && stores == [] && fresh(slots)
    {
      slots := new FenceSlot[16](_ => FenceSlot(0, -1));
      next, stores := 0, [];
    }

    /** store_fence: `closed` is the superseded descriptor, if the slot was in use. */
    method Store(token: U64, fd: Fd) returns (closed: seq<Fd>)
      requires Valid()
      modifies this, slots
      ensures Valid() && stores == old(stores) + [Fence(token, fd)]
      ensures closed + Owned() == old(Owned()) + [fd]
      ensures |closed| == if |old(stores)| < 16 then 0 else 1
    {
      ghost var was := slots[..];
      NextSlot(was, stores);
      StoreKeepsRepresents(was, stores, next, Fence(token, fd));
      LiveAfterStore(stores, Fence(token, fd));
      closed := if slots[next].fd >= 0 then [slots[next].fd] else [];
      assert slots[next] == was[next];
      slots[next] := FenceSlot(token, fd);
      assert slots[..] == was[next := SlotFor(Fence(token, fd))];
      next := (next + 1) % 16;
      stores := stores + [Fence(token, fd)];
    }

    /** lookup_fence: the first match in slot order. */
    method Lookup(token: U64) returns (fd: int)
      requires Valid()
      ensures fd == -1 <==> forall f :: f in LastStores(stores) ==> f.token != token
      ensures fd == -1 || (fd >= 0 && Fence(token, fd) in LastStores(stores))
      ensures DistinctTokens(LastStores(stores)) ==>
        forall f :: f in LastStores(stores) && f.token == token ==> fd == f.fd
    {
      ghost var live := LastStores(stores);
      for j := 0 to 16
        invariant forall i :: 0 <= i < j && i < |stores| ==> slots[i].token != token
      {
        SlotHolds(slots[..], stores, j);
        if slots[j].fd >= 0 && slots[j].token == token {
          ghost var i := StoreIn(|stores|, j);
          assert stores[i] == live[i - (|stores| - |live|)];
          return slots[j].fd;
        }
      }
      forall f | f in live ensures f.token != token {
        var q :| 0 <= q < |live| && live[q] == f;
        var i := |stores| - |live| + q;
        assert slots[..][i % 16] == SlotFor(stores[i]);
      }
      return -1;
    }

    /** close_fences: closes them all, in slot order. */
    method Clear() returns (closed: seq<Fd>)
      requires Valid()
      modifies this, slots
      ensures Valid() && stores == []
      ensures multiset(closed) == multiset(old(Owned()))
    {
      closed := [];
      ghost var before, kept := slots[..], stores;
      for j := 0 to 16
        invariant stores == kept
        invariant forall i :: j <= i < 16 ==> slots[i] == before[i]
        invariant forall i :: 0 <= i < j ==> slots[i].fd < 0
        invariant |closed| == if j < |stores| then j else |stores|
        invariant forall i :: 0 <= i < |closed| ==> closed[i] == before[i].fd
      {
        SlotHolds(before, stores, j);
        if slots[j].fd >= 0 {
          closed := closed + [slots[j].fd];
          slots[j] := slots[j].(fd := -1);
        }
      }
      SlotOrderIsLive(before, stores, closed);
      next, stores := 0, [];
    }
  }
}
