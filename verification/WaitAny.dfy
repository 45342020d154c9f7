/** wait_for_update and wait_any: deadlines, the checking passes, and what a return or a timeout means. */
module WaitAny {
  import opened Machine
  import opened Seqlock
  import opened Subscriber

  // ------------------------------------------------------------------ deadlines

  datatype Timespec = Timespec(sec: int, nsec: int)

  predicate Normal(t: Timespec) { 0 <= t.nsec < 1_000_000_000 }

  function Total(t: Timespec): int { t.sec * 1_000_000_000 + t.nsec }

  /** deadline_after, for a timeout that is not negative. */
  function DeadlineAfter(now: Timespec, timeoutMs: nat): (t: Timespec)
    requires Normal(now)
    ensures Normal(t) && Total(t) == Total(now) + timeoutMs * 1_000_000
  {
    var sec, nsec := now.sec + timeoutMs / 1000, now.nsec + timeoutMs % 1000 * 1_000_000;
    if nsec >= 1_000_000_000 then Timespec(sec + 1, nsec - 1_000_000_000) else Timespec(sec, nsec)
  }

  /** past: field by field, which on normal times is the comparison of total nanoseconds. */
  predicate Past(now: Timespec, d: Timespec): (r: bool)
    ensures Normal(now) && Normal(d) ==> (r <==> Total(now) >= Total(d))
  {
    now.sec > d.sec || (now.sec == d.sec && now.nsec >= d.nsec)
  }

  // ------------------------------------------------------------------ waiting

  /** How one sleep of wait_any ends. */
  datatype Sleep = Woken | ValueMoved | Interrupted | DeadlinePassed | NotImplemented | Refused(errno: int)

  datatype Outcome = Ready(index: nat) | TimedOut | Failed(errno: int) | Invalid | StillWaiting

  ghost predicate Watching(s: TensorSubscriber)
    reads s
  {
    s.meta.Meta? && InStep(s.meta, s.track, s.lastGood, s.seenNotify, s.seenSeqno)
  }

  /** The same slot, looked at no earlier. */
  ghost predicate Onward(m: Meta, m': Meta)
  {
    m.Meta? && m'.Meta? && m' == m.(now := m'.now) && m.now <= m'.now
  }

  /** Looking at its slot no earlier than where it stood in `from`, `s` found nothing it has not seen. */
  ghost predicate Quiet(s: TensorSubscriber, from: Meta, look: Look)
    reads s`meta, s`seenNotify, s`seenSeqno
  {
    Onward(from, s.meta) && from.now <= look.from <= look.at && Unchanged(s.meta, look, s.seenNotify, s.seenSeqno)
  }

  /** Where `s` last looked at its slot, there was something it has not seen. */
  ghost predicate Updated(s: TensorSubscriber)
    reads s`meta, s`seenNotify, s`track
  {
    && s.meta.Meta? && s.meta.now < |s.meta.hist|
    && if s.meta.hasNotify then s.meta.hist[s.meta.now].notify != s.seenNotify
       else s.track.seenHere ==> s.track.taken < Stored(s.meta.hist[s.meta.now])
  }

  /** One checking pass: the first subscriber with an update, or none. looked[i] is where the pass read slot i. */
  method CheckAll(subs: seq<TensorSubscriber>) returns (first: int, ghost looked: seq<Look>)
    requires forall s :: s in subs ==> Watching(s)
    modifies (set s | s in subs)`meta
    ensures forall s :: s in subs ==> Watching(s) && Onward(old(s.meta), s.meta)
    ensures -1 <= first < |subs|
    ensures |looked| == if first >= 0 then first else |subs|
    ensures forall i :: 0 <= i < |looked| ==> Quiet(subs[i], old(subs[i].meta), looked[i])
    ensures first >= 0 ==> Updated(subs[first])
  {
    first, looked := -1, [];
    for i := 0 to |subs|
      invariant first == -1 && |looked| == i
      invariant forall s :: s in subs ==> Watching(s) && Onward(old(s.meta), s.meta)
      invariant forall k :: 0 <= k < i ==> Quiet(subs[k], old(subs[k].meta), looked[k])
    {
      var update;
      ghost var look;
      update, look := subs[i].HasUpdate();
      if update { return i, looked; }
      looked := looked + [look];
    }
  }

  method ReadClock(last: Timespec) returns (t: Timespec)
    requires Normal(last)
    ensures Normal(t) && Total(last) <= Total(t)
  {
    t := *;
    if !Normal(t) || !Past(t, last) { t := last; }
  }

  /** The arguments wait_any accepts, and whether it can sleep on all their words: on `maxWaitv` of them in one
      call, which is 128, or 0 where the build has no such call. */
  method AllAttached(subs: seq<TensorSubscriber>, maxWaitv: nat) returns (ok: bool, futexes: bool)
    ensures ok <==> subs != [] && forall s :: s in subs ==> s.meta.Meta?
    ensures ok ==> (futexes <==> |subs| <= maxWaitv && forall s :: s in subs ==> s.meta.Meta? && s.meta.hasNotify)
  {
    futexes := |subs| <= maxWaitv;
    if subs == [] { return false, futexes; }
    for i := 0 to |subs|
      invariant forall k :: 0 <= k < i ==> subs[k].meta.Meta?
      invariant futexes <==> |subs| <= maxWaitv && forall k :: 0 <= k < i ==>
                  subs[k].meta.Meta? && subs[k].meta.hasNotify
    {
      if subs[i].meta == NoMeta { return false, futexes; }
      futexes := futexes && subs[i].meta.hasNotify;
    }
    return true, futexes;
  }

  /** Whether the deadline, if there is one, has passed. */
  method IsLate(timeoutMs: int, last: Timespec, deadline: Timespec) returns (late: bool, now: Timespec)
    requires Normal(last) && Normal(deadline)
    ensures Normal(now) && (late <==> timeoutMs >= 0 && Total(now) >= Total(deadline))
  {
    now := last;
    if timeoutMs < 0 { return false, now; }
    now := ReadClock(last);
    late := Past(now, deadline);
  }

  /** wait_any. `sleeps` says how each sleep ends, in turn; when they run out the call is still waiting. A timeout is
      reported only after a pass that found every watched word at its seen value, on a clock past the deadline. */
  method WaitAny(subs: seq<TensorSubscriber>, timeoutMs: int, start: Timespec, sleeps: seq<Sleep>, maxWaitv: nat)
    returns (r: Outcome, ghost looked: seq<Look>, ghost clock: Timespec, ghost passes: nat)
    requires forall s :: s in subs ==> s.meta.Meta? ==> Watching(s)
    requires Normal(start)
    modifies (set s | s in subs)`meta
    ensures forall s :: s in subs ==>
      if old(s.meta.Meta?) then Watching(s) && Onward(old(s.meta), s.meta) else s.meta == NoMeta
    ensures r == Invalid <==> subs == [] || exists s :: s in subs && s.meta == NoMeta
    ensures r != Invalid ==> 1 <= passes <= |sleeps| + 1
    // The last pass decides: an update, the first in the order given ..
    ensures r.Ready? ==> r.index < |subs| && |looked| == r.index && Updated(subs[r.index])
    // .. or nothing new anywhere,
    ensures r != Invalid && !r.Ready? ==> |looked| == |subs|
    ensures r != Invalid ==> forall i :: 0 <= i < |looked| ==> Quiet(subs[i], old(subs[i].meta), looked[i])
    // and then the deadline: past it the call times out, before it the call sleeps again.
    ensures r == TimedOut ==> timeoutMs >= 0 && Total(clock) >= Total(start) + timeoutMs * 1_000_000
    ensures r.Failed? || r == StillWaiting ==>
      timeoutMs < 0 || Total(clock) < Total(start) + timeoutMs * 1_000_000
    ensures r.Failed? ==> passes <= |sleeps| && sleeps[passes - 1] == Refused(r.errno)
    ensures r == StillWaiting ==> passes == |sleeps| + 1
  {
    looked, clock, passes := [], start, 0;
    var attached, futexes := AllAttached(subs, maxWaitv);
    if !attached { return Invalid, [], start, 0; }
    var deadline := DeadlineAfter(start, if timeoutMs < 0 then 0 else timeoutMs);
    var time := start;
    for n := 0 to |sleeps| + 1
      invariant forall s :: s in subs ==> Watching(s) && Onward(old(s.meta), s.meta)
      invariant Normal(time) && passes == n
      invariant n > 0 ==> |looked| == |subs|
      invariant n > 0 ==> forall i :: 0 <= i < |subs| ==> Quiet(subs[i], old(subs[i].meta), looked[i])
      invariant n > 0 ==> timeoutMs < 0 || Total(clock) < Total(start) + timeoutMs * 1_000_000
    {
      passes := n + 1;
      // The waiter flags are raised here; WaitRun follows the same loop with them, step by step.
      var first;
      first, looked := CheckAll(subs);
      if first >= 0 { return Ready(first), looked, time, passes; }
      var late;
      late, time := IsLate(timeoutMs, time, deadline);
      clock := time;
      if late { return TimedOut, looked, clock, passes; }
      if n == |sleeps| { return StillWaiting, looked, clock, passes; }
      if futexes {
        match sleeps[n] {
          case NotImplemented => futexes := false;  // poll from here on
          case Refused(e) => return Failed(e), looked, clock, passes;
          case _ =>
        }
      }
    }
    return StillWaiting, looked, clock, passes;
  }

  /** wait_for_update: the one-subscriber wait, with 1 for an update, 0 for a timeout and -1 for an error. */
  method WaitForUpdate(s: TensorSubscriber, timeoutMs: int, start: Timespec, sleeps: seq<Sleep>, maxWaitv: nat)
    returns (rc: Option<int>, ghost looked: seq<Look>, ghost clock: Timespec, ghost passes: nat)
    requires Normal(start) && (s.meta.Meta? ==> Watching(s))
    modifies s`meta
    ensures if old(s.meta.Meta?) then Watching(s) && Onward(old(s.meta), s.meta) else s.meta == NoMeta
    ensures s.meta == NoMeta ==> rc == Some(-1)
    ensures rc == Some(1) ==> Updated(s)
    ensures rc == Some(0) ==> timeoutMs >= 0 && Total(clock) >= Total(start) + timeoutMs * 1_000_000
    ensures rc == Some(0) ==> |looked| == 1 && Quiet(s, old(s.meta), looked[0])
    ensures rc == Some(-1) && s.meta.Meta? ==> 0 < passes <= |sleeps| && sleeps[passes - 1].Refused?
    ensures rc == None ==> passes == |sleeps| + 1
  {
    var r;
    r, looked, clock, passes := WaitAny([s], timeoutMs, start, sleeps, maxWaitv);
    assert s in [s];
    rc := match r
      case Ready(_) => Some(1)
      case TimedOut => Some(0)
      case StillWaiting => None
      case _ => Some(-1);
  }

  /** One turn of a consumer: a wait and, if it reports an update, a read. */
  datatype Round = Round(timeoutMs: int, start: Timespec, sleeps: seq<Sleep>, maxRetry: int, clock: U64)

  /** The loop the interface asks for, with any timeouts and retry bounds: wait, then take the frame. A return after
      which a fresh frame is taken is used up, so however often the waits return early, n returns need n publishes,
      not counting the returns after which no fresh frame was to be had. */
  method ConsumeLoop(s: TensorSubscriber, rounds: seq<Round>, maxWaitv: nat) returns (updates: nat, unanswered: nat)
    requires s.Reading() && s.fences.Valid() && forall r :: r in rounds ==> Normal(r.start)
    requires s.meta.Meta? && s.meta.hasNotify && s.track.seenHere
    modifies s`meta, s`lastGood, s`fallbackCount, s`seenNotify, s`seenSeqno, s`track
    ensures s.Reading() && s.meta.Meta? && s.meta.hist == old(s.meta.hist)
    ensures old(s.seenNotify) + updates <= s.meta.hist[s.meta.now].notify + unanswered
    ensures unanswered <= updates <= |rounds|
  {
    updates, unanswered := 0, 0;
    for k := 0 to |rounds|
      invariant s.Reading() && s.meta.Meta? && s.meta.hasNotify && s.track.seenHere
      invariant s.meta.hist == old(s.meta.hist)
      invariant old(s.seenNotify) + updates <= s.seenNotify + unanswered && unanswered <= updates <= k
    {
      var r;
      ghost var looked, clock, passes;
      r, looked, clock, passes := WaitAny([s], rounds[k].timeoutMs, rounds[k].start, rounds[k].sleeps, maxWaitv);
      if r.Ready? {
        updates := updates + 1;
        var view, isNew, read;
        ghost var failed;
        view, isNew, read, failed := s.LatestView(rounds[k].maxRetry, rounds[k].clock);
        if !isNew { unanswered := unanswered + 1; }
      }
    }
  }
}
