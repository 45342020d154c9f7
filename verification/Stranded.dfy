/** The sleeper nobody wakes: it is reachable, and it can sleep through any number of publishes. */
module Stranded {
  import opened Descriptor
  import opened Seqlock
  import opened Channel
  import opened WaitProtocol

  ghost predicate MovesAt(g: seq<Slot>, t: nat)
    requires t + 1 < |g|
  {
    PublisherStep(g[t], g[t + 1])
  }

  /** The publisher alone, with the waiter flag down and no wake due. */
  ghost predicate Solo(g: seq<Slot>)
  {
    && |g| > 0
    && (forall t :: 0 <= t < |g| ==> !g[t].waiters && g[t].phase != Waking)
    && forall t: nat :: t + 1 < |g| ==> MovesAt(g, t)
  }

  lemma JoinSolo(a: seq<Slot>, b: seq<Slot>)
    requires Solo(a) && Solo(b) && a[|a| - 1] == b[0]
    ensures Solo(a + b[1..]) && (a + b[1..])[0] == a[0] && (a + b[1..])[|a| + |b| - 2] == b[|b| - 1]
  {
    var g := a + b[1..];
    forall t: nat | t + 1 < |g| ensures MovesAt(g, t) {
      if t + 1 < |a| {
        assert MovesAt(a, t);
      } else {
        assert MovesAt(b, t - |a| + 1);
      }
    }
  }

  lemma TwoSolo(s: Slot, s': Slot)
    requires PublisherStep(s, s') && !s.waiters && !s'.waiters && s.phase != Waking && s'.phase != Waking
    ensures Solo([s, s'])
  {
  }

  const ALL_WORDS: set<nat> := {0, 1, 2, 3, 4, 5, 6, 7, 8, 9, 10, 11, 12, 13, 14, 15, 16, 17}

  function Left(p: Phase): nat
  {
    match p
    case Copying(done) => 4 + |ALL_WORDS - done|
    case Sealed => 3
    case Readied => 2
    case Bumped => 1
    case _ => 0
  }

  lemma SealStep(s: Slot) returns (next: Slot)
    requires Inv(s) && s.phase.Copying? && ALL_WORDS - s.phase.done == {}
    ensures PublisherStep(s, next) && next == s.(guard := s.guard + 1, phase := Sealed)
  {
    forall k: nat | k < WORDS ensures k in s.phase.done {
      assert k in ALL_WORDS - s.phase.done || k in s.phase.done;
    }
    next := s.(guard := s.guard + 1, phase := Sealed);
    assert Seal(s, next);
  }

  lemma CopyStep(s: Slot) returns (next: Slot)
    requires Inv(s) && s.phase.Copying?
    ensures PublisherStep(s, next) && Left(next.phase) < Left(s.phase)
    ensures next.waiters == s.waiters && (next.phase.Copying? || next.phase == Sealed) && next.published == s.published
  {
    var done := s.phase.done;
    if ALL_WORDS - done == {} {
      next := SealStep(s);
    } else {
      var k :| k in ALL_WORDS - done;
      next := s.(words := s.words[k := Latest(s)[k]], phase := Copying(done + {k}));
      assert CopyWord(s, next, k);
      assert ALL_WORDS - (done + {k}) == (ALL_WORDS - done) - {k};
    }
  }

  /** Inside publish() and short of the bump, the publisher can always take one more step towards it. */
  lemma SoloStep(s: Slot) returns (next: Slot)
    requires Inv(s) && !s.waiters && s.phase != Waking && s.phase != Idle && s.phase != Bumped
    ensures PublisherStep(s, next) && Inv(next) && Left(next.phase) < Left(s.phase)
    ensures !next.waiters && next.phase != Waking && next.phase != Idle && next.published == s.published
  {
    match s.phase {
      case Copying(_) => next := CopyStep(s);
      case Sealed => next := s.(ready := true, phase := Readied); assert MakeReady(s, next);
      case Readied => next := s.(notify := s.notify + 1, phase := Bumped); assert Bump(s, next);
    }
    Seqlock.PublisherKeepsInv(s, next);
  }

  /** Running alone, the publisher gets from anywhere inside publish() to its bump. */
  lemma SoloToBumped(s: Slot) returns (g: seq<Slot>)
    requires Inv(s) && !s.waiters && s.phase != Waking && s.phase != Idle
    ensures Solo(g) && g[0] == s
    ensures var e := g[|g| - 1];
            e.phase == Bumped && Inv(e) && e.published == s.published && e.notify == |s.published|
    decreases Left(s.phase)
  {
    if s.phase == Bumped {
      return [s];
    }
    var next := SoloStep(s);
    var rest := SoloToBumped(next);
    TwoSolo(s, next);
    JoinSolo([s, next], rest);
    g := [s, next] + rest[1..];
  }

  /** Running alone, it finishes the publish it is in, if any, without a wake. */
  lemma SoloToIdle(s: Slot) returns (g: seq<Slot>)
    requires Inv(s) && !s.waiters && s.phase != Waking
    ensures Solo(g) && g[0] == s
    ensures var e := g[|g| - 1];
            e.phase == Idle && Inv(e) && e.published == s.published && e.notify == |s.published|
  {
    if s.phase == Idle {
      return [s];
    }
    var a := SoloToBumped(s);
    var b := a[|a| - 1];
    var e := b.(phase := Idle);
    assert TakeFlag(b, e);
    assert Solo([b, e]);
    JoinSolo(a, [b, e]);
    StepKeepsInv(b, e);
    g := a + [b, e][1..];
  }

  ghost predicate AtRest(s: Slot, published: seq<Words>)
  {
    s.phase == Idle && Inv(s) && s.published == published && s.notify == |published|
  }

  /** From rest it publishes one record. */
  lemma SoloPublish(s: Slot, d: Words) returns (g: seq<Slot>)
    requires Inv(s) && !s.waiters && s.phase == Idle
    ensures Solo(g) && g[0] == s && AtRest(g[|g| - 1], s.published + [d])
  {
    var next := s.(guard := s.guard + 1, phase := Copying({}), published := s.published + [d]);
    assert Begin(s, next, d);
    Seqlock.PublisherKeepsInv(s, next);
    TwoSolo(s, next);
    var c := SoloToIdle(next);
    JoinSolo([s, next], c);
    g := [s, next] + c[1..];
  }

  /** From rest it publishes the given records. */
  lemma {:induction false} SoloPublishes(s: Slot, ds: seq<Words>) returns (g: seq<Slot>)
    requires Inv(s) && !s.waiters && s.phase == Idle
    ensures Solo(g) && g[0] == s && AtRest(g[|g| - 1], s.published + ds)
    decreases |ds|
  {
    if ds == [] {
      assert s.published + ds == s.published;
      return [s];
    }
    var a := SoloPublish(s, ds[0]);
    var b := SoloPublishes(a[|a| - 1], ds[1..]);
    JoinSolo(a, b);
    g := a + b[1..];
    assert (s.published + [ds[0]]) + ds[1..] == s.published + ds;
  }

  /** A publisher's solo run, with every consumer standing still. */
  function Lift(s: System, k: nat, g: seq<Slot>): (h: seq<System>)
    requires k < |s.slots|
    ensures |h| == |g|
  {
    seq(|g|, t requires 0 <= t < |g| => s.(slots := s.slots[k := g[t]]))
  }

  lemma LiftIsSteps(s: System, k: nat, g: seq<Slot>)
    requires k < |s.slots| && Solo(g) && g[0] == s.slots[k]
    ensures Steps(false, Lift(s, k, g)) && Lift(s, k, g)[0] == s
  {
    var h := Lift(s, k, g);
    assert s.slots[k := g[0]] == s.slots;
    forall t: nat | t + 1 < |h| ensures NextAt(false, h, t) {
      assert MovesAt(g, t);
      assert h[t + 1].slots == h[t].slots[k := h[t + 1].slots[k]];
      assert PublisherMoves(false, h[t], h[t + 1], k);
    }
  }

  /** The other half of CoveredSleeperIsWoken: an uncovered sleeper can sleep through any number of publishes. */
  lemma UncoveredCanSleepThrough(s: System, j: nat, k: nat, n: nat) returns (h: seq<System>)
    requires j < |s.waiters| && s.waiters[j].stage == Asleep && k < |s.slots|
    requires Inv(s.slots[k]) && !Covered(s.slots[k])
    ensures Steps(false, h) && h[0] == s && SleepsThrough(h, j)
    ensures var e := h[|h| - 1];
            e.waiters == s.waiters && |e.slots| == |s.slots|
            && e.slots[k].phase == Idle && !Covered(e.slots[k]) && e.slots[k].notify >= s.slots[k].notify + n
    ensures s.slots[k].phase == Idle ==> h[|h| - 1].slots[k].notify == s.slots[k].notify + n
  {
    var a := SoloToIdle(s.slots[k]);
    var b := SoloPublishes(a[|a| - 1], seq(n, _ => EMPTY.words));
    JoinSolo(a, b);
    var g := a + b[1..];
    LiftIsSteps(s, k, g);
    h := Lift(s, k, g);
  }

  lemma JoinSteps(a: seq<System>, b: seq<System>)
    requires Steps(false, a) && Steps(false, b) && a[|a| - 1] == b[0]
    ensures Steps(false, a + b[1..]) && (a + b[1..])[0] == a[0] && (a + b[1..])[|a| + |b| - 2] == b[|b| - 1]
  {
    var h := a + b[1..];
    forall t: nat | t + 1 < |h| ensures NextAt(false, h, t) {
      if t + 1 < |a| {
        assert NextAt(false, a, t);
      } else {
        assert NextAt(false, b, t - |a| + 1);
      }
    }
  }

  const FRESH := Waiter([0], [0], [false], Outside)       // watches slot 0, has seen nothing
  const RAISED := Waiter([0], [1], [true], Raising(1))    // has seen publish 1, raised its flag in the gap

  /** latest_view() takes frame 1 and wait_any() raises the flag, all between the bump and the exchange. */
  lemma RaiseInGap(b: Slot) returns (h: seq<System>)
    requires b.phase == Bumped && b.notify == 1 && !b.waiters
    ensures Steps(false, h) && h[0] == System([b], [FRESH])
    ensures h[|h| - 1] == System([b.(waiters := true)], [RAISED])
  {
    var w1 := FRESH.(stage := Viewing(0, 1));
    var w2 := FRESH.(seen := [1]);
    var w3 := w2.(stage := Raising(0));
    h := [System([b], [FRESH]), System([b], [w1]), System([b], [w2]), System([b], [w3]),
          System([b.(waiters := true)], [RAISED])];
    assert w1 == FRESH.(stage := Viewing(0, h[0].slots[FRESH.subs[0]].notify));
    assert ConsumerMoves(h[0], h[1], 0);
    assert FRESH.seen[0 := 1] == [1];
    assert ConsumerMoves(h[1], h[2], 0);
    assert ConsumerMoves(h[2], h[3], 0);
    assert w2.inGap[0 := true] == [true];
    assert RaiseFlag(h[3], w3, RAISED, [b.(waiters := true)]);
    assert ConsumerMoves(h[3], h[4], 0);
  }

  /** The exchange takes the flag, the wake finds nobody asleep, and then the consumer sleeps on the current value. */
  lemma SleepAfterExchange(b: Slot) returns (h: seq<System>)
    requires b.phase == Bumped && b.notify == 1 && b.waiters
    ensures Steps(false, h) && h[0] == System([b], [RAISED])
    ensures h[|h| - 1] == System([b.(phase := Idle, waiters := false)], [RAISED.(stage := Asleep)])
  {
    var taken, idle := b.(phase := Waking, waiters := false), b.(phase := Idle, waiters := false);
    var w1, w2 := RAISED.(stage := Checking(0)), RAISED.(stage := Checking(1));
    h := [System([b], [RAISED]), System([b], [w1]), System([taken], [w1]), System([idle], [w1]),
          System([idle], [w2]), System([idle], [RAISED.(stage := Asleep)])];
    assert ConsumerMoves(h[0], h[1], 0);
    assert TakeFlag(b, taken);
    assert PublisherMoves(false, h[1], h[2], 0);
    assert WakeAll([w1], 0) == [w1];
    assert PublisherMoves(false, h[2], h[3], 0);
    assert ConsumerMoves(h[3], h[4], 0);
    assert ConsumerMoves(h[4], h[5], 0);
  }

  /** The first publish up to its bump. */
  lemma SoloFirst() returns (g: seq<Slot>)
    ensures Solo(g) && g[0] == EMPTY
    ensures var b := g[|g| - 1]; b.phase == Bumped && b.notify == 1 && !b.waiters && Inv(b)
  {
    var first := EMPTY.(guard := 1, phase := Copying({}), published := [EMPTY.words]);
    assert Begin(EMPTY, first, EMPTY.words);
    StepKeepsInv(EMPTY, first);
    TwoSolo(EMPTY, first);
    var rest := SoloToBumped(first);
    JoinSolo([EMPTY, first], rest);
    g := [EMPTY, first] + rest[1..];
  }

  /** The same while the consumer has not begun. */
  lemma FirstBump() returns (h: seq<System>, bumped: Slot)
    ensures Steps(false, h) && h[0] == System([EMPTY], [FRESH]) && h[|h| - 1] == System([bumped], [FRESH])
    ensures bumped.phase == Bumped && bumped.notify == 1 && !bumped.waiters && Inv(bumped)
  {
    var g := SoloFirst();
    bumped := g[|g| - 1];
    var s := System([EMPTY], [FRESH]);
    LiftIsSteps(s, 0, g);
    h := Lift(s, 0, g);
    assert [EMPTY][0 := bumped] == [bumped];
  }

  /** The stranded state is reachable from the start. */
  lemma StrandedReachable() returns (h: seq<System>)
    ensures Run(false, h)
    ensures var e := h[|h| - 1];
            && |e.slots| == |e.waiters| == 1 && e.slots[0].phase == Idle && Inv(e.slots[0])
            && e.slots[0].notify == 1 && !Covered(e.slots[0])
            && e.waiters[0] == Waiter([0], [1], [true], Asleep)
  {
    var a, bumped := FirstBump();
    var b := RaiseInGap(bumped);
    JoinSteps(a, b);
    var c := SleepAfterExchange(bumped.(waiters := true));
    JoinSteps(a + b[1..], c);
    h := (a + b[1..]) + c[1..];
  }

  /** For every n there is a run in which a consumer that never timed out sleeps while n newer frames are published,
      and no wake is under way. */
  lemma StrandedForever(n: nat) returns (h: seq<System>)
    ensures Run(false, h)
    ensures var e := h[|h| - 1];
            && |e.slots| == |e.waiters| == 1 && e.waiters[0] == Waiter([0], [1], [true], Asleep)
            && e.slots[0].notify == 1 + n && e.slots[0].phase == Idle && !Covered(e.slots[0])
  {
    var a := StrandedReachable();
    var b := UncoveredCanSleepThrough(a[|a| - 1], 0, 0, n);
    JoinSteps(a, b);
    h := a + b[1..];
  }

  /** What one slot goes through in any run of the whole system is a run of the slot: readers of it are covered by the
      seqlock's results. */
  lemma SlotOfRunIsSlotRun(h: seq<System>, k: nat) returns (g: seq<Slot>)
    requires Run(false, h) && k < |h[0].slots|
    ensures SlotRun(g) && |g| == |h|
    ensures forall t :: 0 <= t < |h| ==> k < |h[t].slots| && g[t] == h[t].slots[k]
  {
    g := [h[0].slots[k]];
    for t := 1 to |h|
      invariant |g| == t && SlotRun(g)
      invariant forall u :: 0 <= u < t ==> |h[u].slots| == |h[0].slots| && g[u] == h[u].slots[k]
    {
      var s, s' := h[t - 1], h[t];
      assert NextAt(false, h, t - 1);
      if p: nat :| PublisherMoves(false, s, s', p) {
        assert |s'.slots| == |s.slots|;
      } else {
        var j: nat :| ConsumerMoves(s, s', j);
      }
      ExtendRun(g, s'.slots[k]);
      g := g + [s'.slots[k]];
    }
  }
}
