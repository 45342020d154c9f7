/** The publisher's end of the metadata slot, store by store. */
module Channel {
  import opened Machine
  import opened Descriptor
  import opened Seqlock

  lemma ExtendRun(h: seq<Slot>, s: Slot)
    requires SlotRun(h) && SlotStep(h[|h| - 1], s)
    ensures SlotRun(h + [s])
  {
    var g := h + [s];
    forall i: nat | i + 1 < |g| ensures StepAt(g, i) {
      if i + 1 < |h| {
        assert StepAt(h, i);
      }
    }
  }

  class MetadataChannel {
    var guard: nat
    var ready: bool
    const desc: array<U64>
    var notify: nat
    var waiters: bool

    ghost var hist: seq<Slot>       // every state the slot has been in
    ghost var published: seq<Words>

    ghost function Snapshot(phase: Phase): Slot
      reads this, desc
      requires desc.Length == WORDS
    {
      Slot(guard, ready, desc[..], notify, waiters, phase, published)
    }

    /** The slot's past is a run of the step system, and the fields are its last state. */
    ghost predicate At(phase: Phase)
      reads this, desc
    {
      desc.Length == WORDS && SlotRun(hist) && hist[|hist| - 1] == Snapshot(phase)
    }

    ghost predicate Valid()
      reads this, desc
    {
      At(Idle)
    }

    constructor ()
      ensures Valid() && fresh(desc) && hist == [EMPTY]
      ensures guard == 0 && notify == 0 && published == [] && !ready && !waiters
    {
      desc := new U64[WORDS](_ => 0);
      guard, ready, notify, waiters := 0, false, 0, false;
      published := [];
      new;
      hist := [EMPTY];
      assert desc[..] == EMPTY.words;
    }

    /** Between any two of the publisher's own steps a consumer may raise the waiter flag. */
    method Others(ghost phase: Phase)
      requires At(phase)
      modifies this`waiters, this`hist
      ensures At(phase) && old(hist) <= hist && (old(waiters) ==> waiters)
    {
      if * {
        ExtendRun(hist, Snapshot(phase).(waiters := true));
        waiters := true;
        hist := hist + [Snapshot(phase)];
      }
    }

    ghost method Record(phase: Phase)
      requires desc.Length == WORDS && SlotRun(hist) && SlotStep(hist[|hist| - 1], Snapshot(phase))
      modifies this`hist
      ensures At(phase) && old(hist) < hist
    {
      ExtendRun(hist, Snapshot(phase));
      hist := hist + [Snapshot(phase)];
    }

    /** The struct copy, word by word; the guard is odd throughout. */
    method CopyIn(d: Words) returns (ghost done: set<nat>)
      requires At(Copying({})) && published != [] && published[|published| - 1] == d
      modifies this`waiters, this`hist, desc
      ensures At(Copying(done)) && forall k: nat :: k < WORDS ==> k in done
      ensures old(hist) <= hist && desc[..] == d && (old(waiters) ==> waiters)
    {
      done := {};
      for i := 0 to WORDS
        invariant At(Copying(done)) && old(hist) <= hist && (old(waiters) ==> waiters)
        invariant forall k: nat :: k < WORDS ==> (k in done <==> k < i)
        invariant desc[..i] == d[..i]
      {
        ghost var before := hist[|hist| - 1];
        desc[i] := d[i];
        assert CopyWord(before, Snapshot(Copying(done + {i})), i);
        done := done + {i};
        Record(Copying(done));
        Others(Copying(done));
      }
    }

    /** Bump notify, take the waiter flag, and wake every sleeper if it was up. */
    method Notify() returns (woken: bool)
      requires At(Readied)
      modifies this`notify, this`waiters, this`hist
      ensures Valid() && old(hist) < hist
      ensures notify == old(notify) + 1 && (old(waiters) ==> woken)
    {
      notify := notify + 1;
      Record(Bumped);
      Others(Bumped);
      woken := waiters;
      waiters := false;
      Record(if woken then Waking else Idle);
      if woken {
        Others(Waking);
        Record(Idle);
      }
    }

    /** The first store of publish(): from here to Close the guard is odd. */
    method Open(d: Words)
      requires Valid()
      modifies this`guard, this`published, this`waiters, this`hist
      ensures At(Copying({})) && old(hist) < hist && (old(waiters) ==> waiters)
      ensures guard == old(guard) + 1 && published == old(published) + [d]
    {
      ghost var before := hist[|hist| - 1];
      guard := guard + 1;
      published := published + [d];
      assert Begin(before, Snapshot(Copying({})), d);
      Record(Copying({}));
      Others(Copying({}));
    }

    /** The guard is even again, and the slot has data. */
    method Close(ghost done: set<nat>)
      requires At(Copying(done)) && forall k: nat :: k < WORDS ==> k in done
      modifies this`guard, this`ready, this`waiters, this`hist
      ensures At(Readied) && old(hist) < hist && (old(waiters) ==> waiters)
      ensures guard == old(guard) + 1 && ready
    {
      ghost var before := hist[|hist| - 1];
      guard := guard + 1;
      assert Seal(before, Snapshot(Sealed));
      Record(Sealed);
      Others(Sealed);
      ready := true;
      Record(Readied);
      Others(Readied);
    }

    /** publish(): `woken` says whether it ended in a wake-all. The code's stores are a run of the step system. */
    method Publish(d: Words) returns (woken: bool)
      requires Valid()
      modifies this, desc
      ensures Valid() && old(hist) < hist
      ensures guard == old(guard) + 2 && notify == old(notify) + 1 && ready
      ensures desc[..] == d && published == old(published) + [d]
      ensures old(waiters) ==> woken
    {
      Open(d);
      ghost var done := CopyIn(d);
      Close(done);
      woken := Notify();
    }
  }
}
