/** wait_any as a consumer of the waiting protocol: its stores, loads and sleeps, one after the other, among the moves
    of everybody else. */
module WaitRun {
  import opened Machine
  import opened Seqlock
  import opened Subscriber
  import opened WaitProtocol
  import opened Stranded
  import opened WaitAny

  function Last(h: seq<System>): (s: System)
    requires h != []
  {
    h[|h| - 1]
  }

  function Me(h: seq<System>, j: nat): (w: Waiter)
    requires h != [] && j < |Last(h).waiters|
  {
    Last(h).waiters[j]
  }

  ghost predicate Going(fused: bool, h: seq<System>, j: nat)
  {
    Run(fused, h) && j < |Last(h).waiters|
  }

  ghost predicate Stands(fused: bool, h: seq<System>, j: nat, stage: Stage)
  {
    Going(fused, h, j) && Me(h, j).stage == stage
  }

  /** The run has gone on, and consumer j still watches the same slots for the same values. */
  ghost predicate WentOn(fused: bool, h: seq<System>, g: seq<System>, j: nat)
    requires Going(fused, h, j)
  {
    Going(fused, g, j) && h <= g && Me(g, j).subs == Me(h, j).subs && Me(g, j).seen == Me(h, j).seen
  }

  /** What everybody else does between two steps of consumer j: any moves, whatever has happened so far. All they can
      do to consumer j is to wake it. */
  type Others = seq<System> -> seq<System>

  ghost predicate LeavesAlone(w: Waiter, w': Waiter)
  {
    w' == w || (w.stage == Asleep && w' == w.(stage := Raising(0)))
  }

  ghost predicate MovesOn(others: Others, fused: bool, h: seq<System>, j: nat)
  {
    Going(fused, h, j) ==> WentOn(fused, h, others(h), j) && LeavesAlone(Me(h, j), Me(others(h), j))
  }

  ghost predicate Bystanders(others: Others, fused: bool, j: nat)
  {
    forall h :: MovesOn(others, fused, h, j)
  }

  method Meanwhile(fused: bool, h: seq<System>, j: nat, others: Others) returns (g: seq<System>)
    requires Going(fused, h, j) && Bystanders(others, fused, j)
    ensures WentOn(fused, h, g, j) && LeavesAlone(Me(h, j), Me(g, j))
  {
    assert MovesOn(others, fused, h, j);
    g := others(h);
  }

  lemma OwnStep(fused: bool, h: seq<System>, j: nat, s: System)
    requires Going(fused, h, j) && ConsumerMoves(Last(h), s, j)
    requires s.waiters[j].subs == Me(h, j).subs && s.waiters[j].seen == Me(h, j).seen
    ensures WentOn(fused, h, h + [s], j)
  {
    var g := h + [s];
    forall i: nat | i + 1 < |g| ensures NextAt(fused, g, i) {
      if i + 1 < |h| { assert NextAt(fused, h, i); }
    }
  }

  lemma Watches(fused: bool, h: seq<System>, j: nat)
    requires Going(fused, h, j)
    ensures WaiterInv(Me(h, j), Last(h).slots)
  {
    RunKeepsInv(fused, h, |h| - 1);
  }

  /** A step that writes nothing shared. */
  method Go(fused: bool, h: seq<System>, j: nat, stage: Stage) returns (g: seq<System>)
    requires Going(fused, h, j) && (WellFormed(Me(h, j), Last(h).slots) ==>
                                      PrivateStep(Last(h), Me(h, j), Me(h, j).(stage := stage)))
    ensures WentOn(fused, h, g, j) && Me(g, j).stage == stage && Last(g).slots == Last(h).slots
    ensures Me(g, j).inGap == Me(h, j).inGap
  {
    Watches(fused, h, j);
    var s := Last(h);
    var s' := s.(waiters := s.waiters[j := s.waiters[j].(stage := stage)]);
    OwnStep(fused, h, j, s');
    g := h + [s'];
  }

  method RaiseOne(fused: bool, h: seq<System>, j: nat, i: nat) returns (g: seq<System>)
    requires Stands(fused, h, j, Raising(i)) && i < |Me(h, j).subs|
    ensures WentOn(fused, h, g, j) && Me(g, j).stage == Raising(i + 1)
  {
    Watches(fused, h, j);
    var s, w := Last(h), Me(h, j);
    var k := w.subs[i];
    var w' := w.(inGap := w.inGap[i := s.slots[k].phase == Bumped], stage := Raising(i + 1));
    var s' := System(s.slots[k := s.slots[k].(waiters := true)], s.waiters[j := w']);
    assert RaiseFlag(s, w, w', s'.slots);
    OwnStep(fused, h, j, s');
    g := h + [s'];
  }

  /** Raise all waiter flags. */
  method RaiseAll(fused: bool, h: seq<System>, j: nat, others: Others) returns (g: seq<System>)
    requires Stands(fused, h, j, Raising(0)) && Bystanders(others, fused, j)
    ensures WentOn(fused, h, g, j) && Me(g, j).stage == Checking(0)
  {
    g := h;
    var n := |Me(h, j).subs|;
    for i := 0 to n
      invariant WentOn(fused, h, g, j) && Me(g, j).stage == Raising(i)
    {
      g := RaiseOne(fused, g, j, i);
      g := Meanwhile(fused, g, j, others);
    }
    g := Go(fused, g, j, Checking(0));
  }

  /** At position `at` of the run, slot i of a consumer had a notify value other than the seen one. */
  ghost predicate Moved(h: seq<System>, w: Waiter, i: nat, at: nat)
    requires at < |h| && WellFormed(w, h[at].slots) && i < |w.subs|
  {
    h[at].slots[w.subs[i]].notify != w.seen[i]
  }

  ghost predicate Looked(h: seq<System>, w: Waiter, i: nat, at: nat)
  {
    at < |h| && WellFormed(w, h[at].slots) && i < |w.subs|
  }

  /** One checking pass, made after position `start` of the run. It looked at slot i at position looked[i], at one after
      the other, and found the first that had moved, or none. */
  ghost predicate Pass(h: seq<System>, w: Waiter, start: nat, first: int, looked: seq<nat>)
  {
    && -1 <= first < |w.subs| && |looked| == (if first >= 0 then first + 1 else |w.subs|)
    && (forall i :: 0 <= i < |looked| ==> start <= looked[i] && Looked(h, w, i, looked[i]))
    && (forall i, k :: 0 <= i < k < |looked| ==> looked[i] <= looked[k])
    && (forall i :: 0 <= i < |looked| ==> (Moved(h, w, i, looked[i]) <==> i == first))
  }

  /** As much of a pass that has found nothing so far. */
  ghost predicate Unmoved(h: seq<System>, w: Waiter, start: nat, looked: seq<nat>)
  {
    && |looked| <= |w.subs|
    && (forall i :: 0 <= i < |looked| ==> start <= looked[i] < |h| && Looked(h, w, i, looked[i]))
    && (forall i, k :: 0 <= i < k < |looked| ==> looked[i] <= looked[k])
    && (forall i :: 0 <= i < |looked| ==> !Moved(h, w, i, looked[i]))
  }

  lemma LookedOnce(h: seq<System>, g: seq<System>, w: Waiter, start: nat, looked: seq<nat>)
    requires 0 < |h| && h <= g && start < |h| && Unmoved(h, w, start, looked)
    requires Looked(h, w, |looked|, |h| - 1)
    ensures if Moved(h, w, |looked|, |h| - 1) then Pass(g, w, start, |looked|, looked + [|h| - 1])
            else Unmoved(g, w, start, looked + [|h| - 1])
  {
    var more := looked + [|h| - 1];
    forall i | 0 <= i < |more|
      ensures Looked(g, w, i, more[i]) && Moved(g, w, i, more[i]) == Moved(h, w, i, more[i])
      ensures start <= more[i]
    {
      assert i < |looked| ==> Looked(h, w, i, looked[i]);
    }
  }

  /** Look at all slots in turn. */
  method CheckAll(fused: bool, h: seq<System>, j: nat, others: Others)
    returns (g: seq<System>, first: int, looked: seq<nat>)
    requires Stands(fused, h, j, Checking(0)) && Bystanders(others, fused, j)
    ensures WentOn(fused, h, g, j) && Pass(g, Me(h, j), |h| - 1, first, looked)
    ensures Me(g, j).stage == if first >= 0 then Outside else Checking(|Me(h, j).subs|)
  {
    g, first, looked := h, -1, [];
    var w := Me(h, j);
    Watches(fused, h, j);
    for i := 0 to |w.subs|
      invariant WentOn(fused, h, g, j) && Me(g, j).stage == Checking(i)
      invariant |looked| == i && Unmoved(g, w, |h| - 1, looked)
    {
      Watches(fused, g, j);
      var moved := Last(g).slots[w.subs[i]].notify != w.seen[i];
      var next := Go(fused, g, j, if moved then Outside else Checking(i + 1));
      if !moved { next := Meanwhile(fused, next, j, others); }
      LookedOnce(g, next, w, |h| - 1, looked);
      g, looked := next, looked + [|g| - 1];
      if moved { return g, i, looked; }
    }
  }

  /** What decides one turn of the loop: whether the deadline has passed, and whether the kernel refuses the sleep. */
  datatype Turn = Turn(late: bool, refused: Option<int>)

  /** futex_waitv: compare all words with the seen values, and sleep only if all are equal. */
  method FallAsleep(fused: bool, h: seq<System>, j: nat) returns (g: seq<System>)
    requires Going(fused, h, j) && Me(h, j).stage == Checking(|Me(h, j).subs|)
    ensures WentOn(fused, h, g, j) && Last(g).slots == Last(h).slots
    ensures Me(g, j).stage == Asleep || Me(g, j).stage == Raising(0)
  {
    Watches(fused, h, j);
    var s, w := Last(h), Me(h, j);
    var moved := exists i :: 0 <= i < |w.subs| && s.slots[w.subs[i]].notify != w.seen[i];
    g := Go(fused, h, j, if moved then Raising(0) else Asleep);
  }

  lemma PassStays(h: seq<System>, g: seq<System>, w: Waiter, w': Waiter, from: nat, start: nat, first: int,
                  looked: seq<nat>)
    requires h <= g && Pass(h, w, from, first, looked) && start <= from
    requires w'.subs == w.subs && w'.seen == w.seen && |w'.inGap| == |w.inGap|
    ensures Pass(g, w', start, first, looked)
  {
    forall i | 0 <= i < |looked| ensures Looked(g, w', i, looked[i]) && (Moved(g, w', i, looked[i]) <==> i == first) {
      assert Looked(h, w, i, looked[i]) && h[looked[i]] == g[looked[i]];
    }
  }

  /** The consumer is asleep, and if a word it watches has moved, then the publish in progress wakes it, or it raised
      its flag in the gap. There is no such gap if bump and exchange are one step. */
  ghost predicate SleepsSoundly(fused: bool, s: System, w: Waiter)
  {
    && w.stage == Asleep && WellFormed(w, s.slots)
    && forall i :: 0 <= i < |w.subs| && s.slots[w.subs[i]].notify != w.seen[i] ==>
         WakeToCome(s.slots[w.subs[i]]) || (w.inGap[i] && !fused)
  }

  lemma SleeperSleepsSoundly(fused: bool, h: seq<System>, j: nat)
    requires Stands(fused, h, j, Asleep)
    ensures SleepsSoundly(fused, Last(h), Me(h, j))
  {
    Watches(fused, h, j);
    forall i | 0 <= i < |Me(h, j).subs| && Last(h).slots[Me(h, j).subs[i]].notify != Me(h, j).seen[i]
      ensures WakeToCome(Last(h).slots[Me(h, j).subs[i]]) || (Me(h, j).inGap[i] && !fused)
    {
      SleeperIsWokenOrRaisedInGap(fused, h, |h| - 1, j, i);
      if fused { FusedNeverLosesAWakeup(h, |h| - 1, j, i); }
    }
  }

  /** One turn of the loop: flags, pass, deadline, sleep. With no result yet, the consumer is asleep or due to look
      again. */
  method TakeTurn(fused: bool, h: seq<System>, j: nat, others: Others, turn: Turn)
    returns (g: seq<System>, r: Outcome, looked: seq<nat>)
    requires Stands(fused, h, j, Raising(0)) && Bystanders(others, fused, j)
    ensures WentOn(fused, h, g, j) && r != Invalid
    ensures Pass(g, Me(h, j), |h| - 1, if r.Ready? then r.index else -1, looked)
    ensures r == TimedOut ==> turn.late
    ensures r.Failed? ==> !turn.late && turn.refused == Some(r.errno)
    ensures r == StillWaiting ==> !turn.late && (Me(g, j).stage == Asleep || Me(g, j).stage == Raising(0))
    ensures r != StillWaiting ==> Me(g, j).stage == Outside
  {
    var up := RaiseAll(fused, h, j, others);
    var first;
    g, first, looked := CheckAll(fused, up, j, others);
    ghost var passed := g;
    if first >= 0 {
      r := Ready(first);
    } else if turn.late {
      r := TimedOut;
      g := Go(fused, g, j, Outside);
    } else if turn.refused.Some? {
      r := Failed(turn.refused.value);
      g := Go(fused, g, j, Outside);
    } else {
      r := StillWaiting;
      g := FallAsleep(fused, g, j);
      g := Meanwhile(fused, g, j, others);
    }
    Watches(fused, h, j);
    Watches(fused, up, j);
    PassStays(passed, g, Me(up, j), Me(h, j), |up| - 1, |h| - 1, first, looked);
  }

  /** wait_any on slots that have a notify word, as consumer j of the protocol: among any moves of the others it goes
      through a run of the protocol, with the results that WaitAny.WaitAny has. While it has none and the consumer
      sleeps, it sleeps soundly. `turns` says what decides each turn; when they run out the call is still waiting. */
  method WaitAnyRuns(fused: bool, h: seq<System>, j: nat, others: Others, turns: seq<Turn>)
    returns (g: seq<System>, r: Outcome, looked: seq<nat>, passes: nat)
    requires Stands(fused, h, j, Outside) && Bystanders(others, fused, j)
    ensures WentOn(fused, h, g, j) && r != Invalid && passes <= |turns|
    ensures passes == 0 <==> turns == []
    ensures passes > 0 ==> Pass(g, Me(h, j), |h|, if r.Ready? then r.index else -1, looked)
    ensures r == TimedOut ==> passes > 0 && turns[passes - 1].late
    ensures r.Failed? ==> passes > 0 && !turns[passes - 1].late && turns[passes - 1].refused == Some(r.errno)
    ensures r == StillWaiting <==> Me(g, j).stage != Outside
    ensures r == StillWaiting ==> passes == |turns| && forall t :: t in turns ==> !t.late
    ensures Me(g, j).stage == Asleep ==> SleepsSoundly(fused, Last(g), Me(g, j))
  {
    looked, passes, r := [], 0, StillWaiting;
    g := Go(fused, h, j, Raising(0));
    for n := 0 to |turns|
      invariant WentOn(fused, h, g, j) && |h| < |g| && passes == n
      invariant Me(g, j).stage == Asleep || Me(g, j).stage == Raising(0)
      invariant n > 0 ==> Pass(g, Me(h, j), |h|, -1, looked)
      invariant forall t :: t in turns[..n] ==> !t.late
    {
      if Me(g, j).stage == Asleep { g := Go(fused, g, j, Raising(0)); }
      var from := g;
      g, r, looked := TakeTurn(fused, from, j, others, turns[n]);
      passes := n + 1;
      Watches(fused, h, j);
      Watches(fused, from, j);
      PassStays(g, g, Me(from, j), Me(h, j), |from| - 1, |h|, if r.Ready? then r.index else -1, looked);
      if r != StillWaiting { return; }
    }
    r := StillWaiting;
    if Me(g, j).stage == Asleep { SleeperSleepsSoundly(fused, g, j); }
  }

  lemma {:induction false} SlotsStay(fused: bool, h: seq<System>, t: nat)
    requires Run(fused, h) && t < |h|
    ensures |h[t].slots| == |h[0].slots|
  {
    if t > 0 {
      SlotsStay(fused, h, t - 1);
      var s, s' := h[t - 1], h[t];
      assert NextAt(fused, h, t - 1);
      if k: nat :| PublisherMoves(fused, s, s', k) {
        assert |s'.slots| == |s.slots|;
      } else {
        var j: nat :| ConsumerMoves(s, s', j);
      }
    }
  }

  /** What the consumer finds in slot i is what has_update() finds of a subscriber whose slot lives as the run says and
      whose seen value is the consumer's: Moved is its answer, and the readers' results apply to that slot. */
  lemma AsSubscriberSees(h: seq<System>, w: Waiter, i: nat, at: nat, seenSeqno: nat) returns (meta: Meta)
    requires Run(false, h) && Looked(h, w, i, at)
    ensures meta.Meta? && meta.hasNotify && meta.now == at && SlotRun(meta.hist) && |meta.hist| == |h|
    ensures forall t :: 0 <= t < |h| ==> w.subs[i] < |h[t].slots| && meta.hist[t] == h[t].slots[w.subs[i]]
    ensures Moved(h, w, i, at) <==> !Unchanged(meta, Look(at, at, None, []), w.seen[i], seenSeqno)
  {
    SlotsStay(false, h, at);
    var slot := SlotOfRunIsSlotRun(h, w.subs[i]);
    meta := Meta(slot, at, true);
  }
}
