/** Sleeping and waking: any number of slots, each with its publisher, and any number of consumers that sleep on
    several slots at once. Every load, store, exchange and system call is one step; sleeping is an atomic
    compare-and-enqueue on all the watched words, and a wake rouses every sleeper of the slot. */
module WaitProtocol {
  import opened Seqlock

  /** Where a consumer is in its code. */
  datatype Stage =
    | Outside
    | Viewing(sub: nat, loaded: nat)  // latest_view(): notify is loaded, the descriptor not yet accepted
    | Raising(next: nat)              // wait_any(): flags of subs[..next] are raised
    | Checking(next: nat)             // subs[..next] had nothing new; all of them: about to sleep
    | Asleep

  /** A consumer watching slots subs[0], subs[1], ..; seen[i] is the notify value of its last fresh frame from subs[i],
      and inGap[i] records whether it last raised that flag between a publish's bump and the same publish's exchange. */
  datatype Waiter = Waiter(subs: seq<nat>, seen: seq<nat>, inGap: seq<bool>, stage: Stage)

  datatype System = System(slots: seq<Slot>, waiters: seq<Waiter>)

  ghost predicate WellFormed(w: Waiter, slots: seq<Slot>)
  {
    && |w.subs| == |w.seen| == |w.inGap|
    && forall i :: 0 <= i < |w.subs| ==> w.subs[i] < |slots|
  }

  ghost predicate Initial(s: System)
  {
    && (forall k :: 0 <= k < |s.slots| ==> s.slots[k] == EMPTY)
    && forall j :: 0 <= j < |s.waiters| ==>
      && WellFormed(s.waiters[j], s.slots)
      && s.waiters[j].stage == Outside
      && forall i :: 0 <= i < |s.waiters[j].subs| ==> s.waiters[j].seen[i] == 0 && !s.waiters[j].inGap[i]
  }

  // ------------------------------------------------------------------ steps

  function Roused(w: Waiter, k: nat): Waiter
  {
    if w.stage == Asleep && k in w.subs then w.(stage := Raising(0)) else w
  }

  function WakeAll(ws: seq<Waiter>, k: nat): (r: seq<Waiter>)
    ensures |r| == |ws| && forall j :: 0 <= j < |ws| ==> r[j] == Roused(ws[j], k)
  {
    seq(|ws|, j requires 0 <= j < |ws| => Roused(ws[j], k))
  }

  /** Bump and exchange as one indivisible step. */
  ghost predicate BumpAndTake(s: Slot, s': Slot)
  {
    s.phase == Readied && TakeFlag(s.(notify := s.notify + 1, phase := Bumped), s')
  }

  /** The publisher of slot k moves; if it was due to wake the sleepers, this is the wake. */
  ghost predicate PublisherMoves(fused: bool, s: System, s': System, k: nat)
  {
    && k < |s.slots| && |s'.slots| == |s.slots|
    && s'.slots == s.slots[k := s'.slots[k]]
    && (if fused && s.slots[k].phase == Readied then BumpAndTake(s.slots[k], s'.slots[k])
        else PublisherStep(s.slots[k], s'.slots[k]))
    && s'.waiters == if s.slots[k].phase == Waking then WakeAll(s.waiters, k) else s.waiters
  }

  ghost predicate RaiseFlag(s: System, w: Waiter, w': Waiter, slots': seq<Slot>)
    requires WellFormed(w, s.slots)
  {
    && w.stage.Raising? && w.stage.next < |w.subs|
    && var i := w.stage.next; var k := w.subs[i];
    && slots' == s.slots[k := s.slots[k].(waiters := true)]
    && w' == w.(inGap := w.inGap[i := s.slots[k].phase == Bumped], stage := Raising(i + 1))
  }

  ghost predicate AllSeen(s: System, w: Waiter)
    requires WellFormed(w, s.slots)
  {
    forall i :: 0 <= i < |w.subs| ==> s.slots[w.subs[i]].notify == w.seen[i]
  }

  /** A consumer's step that writes nothing shared. */
  ghost predicate PrivateStep(s: System, w: Waiter, w': Waiter)
    requires WellFormed(w, s.slots)
  {
    match w.stage
    case Outside =>
      || w' == w.(stage := Raising(0))
      || (exists i: nat :: i < |w.subs| && w' == w.(stage := Viewing(i, s.slots[w.subs[i]].notify)))
    case Viewing(i, n) =>
      w' == w.(stage := Outside) || (i < |w.subs| && w' == w.(seen := w.seen[i := n], stage := Outside))
    case Raising(i) =>
      i >= |w.subs| && w' == w.(stage := Checking(0))
    case Checking(i) =>
      if i < |w.subs| then
        w' == w.(stage := if s.slots[w.subs[i]].notify != w.seen[i] then Outside else Checking(i + 1))
      else
        w' == w.(stage := Outside)  // timed out
        || w' == w.(stage := if AllSeen(s, w) then Asleep else Raising(0))
    case Asleep =>
      w' == w.(stage := Raising(0))  // a signal, a timeout, a spurious return
  }

  ghost predicate ConsumerMoves(s: System, s': System, j: nat)
  {
    && j < |s.waiters| && |s'.waiters| == |s.waiters| && WellFormed(s.waiters[j], s.slots)
    && s'.waiters == s.waiters[j := s'.waiters[j]]
    && (|| RaiseFlag(s, s.waiters[j], s'.waiters[j], s'.slots)
        || (s'.slots == s.slots && PrivateStep(s, s.waiters[j], s'.waiters[j])))
  }

  ghost predicate Next(fused: bool, s: System, s': System)
  {
    (exists k: nat :: PublisherMoves(fused, s, s', k)) || (exists j: nat :: ConsumerMoves(s, s', j))
  }

  ghost predicate NextAt(fused: bool, h: seq<System>, i: nat)
    requires i + 1 < |h|
  {
    Next(fused, h[i], h[i + 1])
  }

  ghost predicate Steps(fused: bool, h: seq<System>)
  {
    |h| > 0 && forall i: nat :: i + 1 < |h| ==> NextAt(fused, h, i)
  }

  ghost predicate Run(fused: bool, h: seq<System>)
  {
    Steps(fused, h) && Initial(h[0])
  }

  // ------------------------------------------------------------------ invariant

  /** Flag i was raised in the current round of wait_any. */
  ghost predicate Armed(w: Waiter, i: nat)
  {
    match w.stage
    case Raising(n) => i < n
    case Checking(_) => true
    case Asleep => true
    case _ => false
  }

  /** A flag raised outside the gap is still up, unless a bump came after it. */
  ghost predicate ArmedAwake(slot: Slot, seen: nat)
  {
    (slot.phase == Bumped ==> slot.notify > seen) && (slot.waiters || slot.notify > seen)
  }

  /** The publish in progress ends in a wake. */
  ghost predicate WakeToCome(slot: Slot)
  {
    slot.phase == Waking || (slot.phase == Bumped && slot.waiters)
  }

  ghost predicate ArmedAsleep(slot: Slot, seen: nat)
  {
    (slot.notify == seen && slot.waiters && slot.phase != Bumped) || WakeToCome(slot)
  }

  ghost predicate Covers(w: Waiter, i: nat, slot: Slot)
    requires i < |w.seen| == |w.inGap|
  {
    && w.seen[i] <= slot.notify
    && (Armed(w, i) && !w.inGap[i] ==>
          if w.stage == Asleep then ArmedAsleep(slot, w.seen[i]) else ArmedAwake(slot, w.seen[i]))
  }

  ghost predicate WaiterInv(w: Waiter, slots: seq<Slot>)
  {
    && WellFormed(w, slots)
    && (w.stage.Viewing? ==> w.stage.sub < |w.subs| && w.stage.loaded <= slots[w.subs[w.stage.sub]].notify)
    && forall i :: 0 <= i < |w.subs| ==> Covers(w, i, slots[w.subs[i]])
  }

  ghost predicate SystemInv(s: System)
  {
    forall j :: 0 <= j < |s.waiters| ==> WaiterInv(s.waiters[j], s.slots)
  }

  lemma PublisherKeepsCovers(fused: bool, w: Waiter, i: nat, k: nat, slot: Slot, slot': Slot)
    requires i < |w.seen| == |w.inGap| == |w.subs| && w.subs[i] == k
    requires Covers(w, i, slot)
    requires if fused && slot.phase == Readied then BumpAndTake(slot, slot') else PublisherStep(slot, slot')
    ensures Covers(if slot.phase == Waking then Roused(w, k) else w, i, slot')
  {
  }

  lemma PublisherKeepsInv(fused: bool, s: System, s': System, k: nat)
    requires SystemInv(s) && PublisherMoves(fused, s, s', k)
    ensures SystemInv(s')
  {
    forall j | 0 <= j < |s'.waiters| ensures WaiterInv(s'.waiters[j], s'.slots) {
      var w := s.waiters[j];
      assert WaiterInv(w, s.slots);
      assert s'.waiters[j] == if s.slots[k].phase == Waking then Roused(w, k) else w;
      forall i | 0 <= i < |w.subs| ensures Covers(s'.waiters[j], i, s'.slots[w.subs[i]]) {
        assert Covers(w, i, s.slots[w.subs[i]]);
        if w.subs[i] == k {
          PublisherKeepsCovers(fused, w, i, k, s.slots[k], s'.slots[k]);
        } else if w.stage == Asleep {
          assert Covers(w.(stage := Raising(0)), i, s.slots[w.subs[i]]);
        }
      }
    }
  }

  lemma RaiseKeepsInv(s: System, s': System, j: nat)
    requires SystemInv(s) && j < |s.waiters| == |s'.waiters| && s'.waiters == s.waiters[j := s'.waiters[j]]
    requires WellFormed(s.waiters[j], s.slots) && RaiseFlag(s, s.waiters[j], s'.waiters[j], s'.slots)
    ensures SystemInv(s')
  {
    forall m | 0 <= m < |s'.waiters| ensures WaiterInv(s'.waiters[m], s'.slots) {
      var w := s.waiters[m];
      assert WaiterInv(w, s.slots);
      forall i | 0 <= i < |w.subs| ensures Covers(s'.waiters[m], i, s'.slots[w.subs[i]]) {
        assert Covers(w, i, s.slots[w.subs[i]]);
      }
    }
  }

  lemma PrivateKeepsInv(s: System, w: Waiter, w': Waiter)
    requires WaiterInv(w, s.slots) && PrivateStep(s, w, w')
    ensures WaiterInv(w', s.slots)
  {
    forall i | 0 <= i < |w'.subs| ensures Covers(w', i, s.slots[w'.subs[i]]) {
      assert Covers(w, i, s.slots[w.subs[i]]);
    }
  }

  lemma ConsumerKeepsInv(s: System, s': System, j: nat)
    requires SystemInv(s) && ConsumerMoves(s, s', j)
    ensures SystemInv(s')
  {
    assert WaiterInv(s.waiters[j], s.slots);
    if RaiseFlag(s, s.waiters[j], s'.waiters[j], s'.slots) {
      RaiseKeepsInv(s, s', j);
    } else {
      PrivateKeepsInv(s, s.waiters[j], s'.waiters[j]);
      forall m | 0 <= m < |s'.waiters| ensures WaiterInv(s'.waiters[m], s'.slots) {
        assert WaiterInv(s.waiters[m], s.slots);
      }
    }
  }

  lemma NextKeepsInv(fused: bool, s: System, s': System)
    requires SystemInv(s) && Next(fused, s, s')
    ensures SystemInv(s')
  {
    if k: nat :| PublisherMoves(fused, s, s', k) {
      PublisherKeepsInv(fused, s, s', k);
    } else {
      var j: nat :| ConsumerMoves(s, s', j);
      ConsumerKeepsInv(s, s', j);
    }
  }

  lemma {:induction false} RunKeepsInv(fused: bool, h: seq<System>, i: nat)
    requires Run(fused, h) && i < |h|
    ensures SystemInv(h[i])
  {
    if i == 0 {
      forall j | 0 <= j < |h[0].waiters| ensures WaiterInv(h[0].waiters[j], h[0].slots) {
      }
    } else {
      RunKeepsInv(fused, h, i - 1);
      assert NextAt(fused, h, i - 1);
      NextKeepsInv(fused, h[i - 1], h[i]);
    }
  }

  // ------------------------------------------------------------------ main results

  /** In every reachable state, a sleeper whose notify word has moved is about to be woken by the publish in progress,
      unless it raised its flag between one publish's bump and that same publish's exchange. */
  lemma SleeperIsWokenOrRaisedInGap(fused: bool, h: seq<System>, t: nat, j: nat, i: nat)
    requires Run(fused, h) && t < |h| && j < |h[t].waiters|
    requires h[t].waiters[j].stage == Asleep && i < |h[t].waiters[j].subs|
    ensures WaiterInv(h[t].waiters[j], h[t].slots)
    ensures var w := h[t].waiters[j]; var slot := h[t].slots[w.subs[i]];
            slot.notify != w.seen[i] ==> WakeToCome(slot) || w.inGap[i]
  {
    RunKeepsInv(fused, h, t);
    var w := h[t].waiters[j];
    assert WaiterInv(w, h[t].slots);
    assert Covers(w, i, h[t].slots[w.subs[i]]);
  }

  /** Somebody will wake the sleepers of this slot: the publish in progress, or the next exchange. */
  ghost predicate Covered(slot: Slot) { slot.waiters || slot.phase == Waking }

  /** The same before notify moves: a sleeper is uncovered only if it raised its flag in the gap. */
  lemma UncoveredRaisedInGap(fused: bool, h: seq<System>, t: nat, j: nat, i: nat)
    requires Run(fused, h) && t < |h| && j < |h[t].waiters|
    requires h[t].waiters[j].stage == Asleep && i < |h[t].waiters[j].subs|
    ensures WaiterInv(h[t].waiters[j], h[t].slots)
    ensures !Covered(h[t].slots[h[t].waiters[j].subs[i]]) ==> h[t].waiters[j].inGap[i]
  {
    RunKeepsInv(fused, h, t);
    var w := h[t].waiters[j];
    assert WaiterInv(w, h[t].slots);
    assert Covers(w, i, h[t].slots[w.subs[i]]);
  }

  ghost predicate SleepsThrough(h: seq<System>, j: nat)
  {
    forall t :: 0 <= t < |h| ==> j < |h[t].waiters| && h[t].waiters[j].stage == Asleep
  }

  ghost predicate AboutToWake(slot: Slot, n: nat)
  {
    || (slot.waiters && slot.notify <= n + (if slot.phase == Bumped then 1 else 0))
    || (slot.phase == Waking && slot.notify <= n + 1)
  }

  lemma NextKeepsAboutToWake(fused: bool, s: System, s': System, j: nat, k: nat, n: nat)
    requires Next(fused, s, s') && k < |s.slots| && AboutToWake(s.slots[k], n)
    requires j < |s.waiters| && s.waiters[j].stage == Asleep && k in s.waiters[j].subs
    requires j < |s'.waiters| && s'.waiters[j].stage == Asleep
    ensures |s'.slots| == |s.slots| && AboutToWake(s'.slots[k], n)
    ensures s'.waiters[j].subs == s.waiters[j].subs
  {
    if p: nat :| PublisherMoves(fused, s, s', p) {
      assert s.slots[p].phase == Waking ==> s'.waiters[j] == Roused(s.waiters[j], p);
    }
  }

  /** A covered sleeper cannot sleep through two publishes: as long as it stays asleep, notify moves at most once. */
  lemma {:induction false} CoveredSleeperIsWoken(fused: bool, h: seq<System>, t: nat, j: nat, k: nat, n: nat)
    requires Steps(fused, h) && t < |h| && SleepsThrough(h, j) && k in h[0].waiters[j].subs && k < |h[0].slots|
    requires AboutToWake(h[0].slots[k], n)
    ensures |h[t].slots| == |h[0].slots| && h[t].waiters[j].subs == h[0].waiters[j].subs
    ensures AboutToWake(h[t].slots[k], n) && h[t].slots[k].notify <= n + 1
  {
    if t > 0 {
      CoveredSleeperIsWoken(fused, h, t - 1, j, k, n);
      assert NextAt(fused, h, t - 1);
      NextKeepsAboutToWake(fused, h[t - 1], h[t], j, k, n);
    }
  }

  // ------------------------------------------------------------------ with bump and exchange in one step

  ghost predicate NeverInGap(w: Waiter) { forall i :: 0 <= i < |w.inGap| ==> !w.inGap[i] }

  ghost predicate NoGap(s: System)
  {
    && (forall k :: 0 <= k < |s.slots| ==> s.slots[k].phase != Bumped)
    && forall j :: 0 <= j < |s.waiters| ==> NeverInGap(s.waiters[j])
  }

  lemma FusedKeepsNoGap(s: System, s': System)
    requires NoGap(s) && Next(true, s, s')
    ensures NoGap(s')
  {
    if k: nat :| PublisherMoves(true, s, s', k) {
      assert s'.slots[k].phase != Bumped;
      forall j | 0 <= j < |s'.waiters| ensures NeverInGap(s'.waiters[j]) {
        assert NeverInGap(s.waiters[j]);
      }
    } else {
      var j: nat :| ConsumerMoves(s, s', j);
      assert NeverInGap(s.waiters[j]);
      assert NeverInGap(s'.waiters[j]);
    }
  }

  lemma {:induction false} FusedHasNoGap(h: seq<System>, t: nat)
    requires Run(true, h) && t < |h|
    ensures NoGap(h[t])
  {
    if t > 0 {
      FusedHasNoGap(h, t - 1);
      assert NextAt(true, h, t - 1);
      FusedKeepsNoGap(h[t - 1], h[t]);
    }
  }

  /** If the bump and the exchange were one step, no wakeup would ever be lost. */
  lemma FusedNeverLosesAWakeup(h: seq<System>, t: nat, j: nat, i: nat)
    requires Run(true, h) && t < |h| && j < |h[t].waiters|
    requires h[t].waiters[j].stage == Asleep && i < |h[t].waiters[j].subs|
    ensures WaiterInv(h[t].waiters[j], h[t].slots)
    ensures var w := h[t].waiters[j]; var slot := h[t].slots[w.subs[i]];
            Covered(slot) && (slot.notify != w.seen[i] ==> slot.phase == Waking)
  {
    FusedHasNoGap(h, t);
    assert NeverInGap(h[t].waiters[j]);
    SleeperIsWokenOrRaisedInGap(true, h, t, j, i);
    UncoveredRaisedInGap(true, h, t, j, i);
  }
}
