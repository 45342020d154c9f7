/** The shared metadata slot: its single writer as word-sized steps, and its readers.

    Every load and store of one word is one sequentially consistent step. A run of the slot is the sequence `h` of
    the states it goes through; readers never write what the writer reads, except the waiter flag, so a reader is
    a method that looks at `h` at increasing positions of its own choice. What is proved of the method therefore
    holds of every interleaving of any number of readers with the writer. */
module Seqlock {
  import opened Machine
  import opened Descriptor

  /** Where the publisher is inside publish(). `done` holds the indices of the words copied so far, in any order. */
  datatype Phase =
    | Idle
    | Copying(done: set<nat>)
    | Sealed    // the guard is even again
    | Readied   // ready == 1
    | Bumped    // notify has moved, the waiter flag is not taken yet
    | Waking    // the flag was taken and was set: a wake of all sleepers is due

  /** The slot, with the publisher's position in its code and the descriptors publish() has been called with. */
  datatype Slot = Slot(
    guard: nat,
    ready: bool,
    words: Words,
    notify: nat,
    waiters: bool,
    phase: Phase,
    published: seq<Words>)

  const EMPTY := Slot(0, false, ZEROS, 0, false, Idle, [])

  ghost predicate Begin(s: Slot, s': Slot, d: Words)
  {
    s.phase == Idle && s' == s.(guard := s.guard + 1, phase := Copying({}), published := s.published + [d])
  }

  ghost predicate CopyWord(s: Slot, s': Slot, k: nat)
  {
    && s.phase.Copying? && s.published != [] && k < WORDS && k !in s.phase.done
    && s' == s.(words := s.words[k := s.published[|s.published| - 1][k]], phase := Copying(s.phase.done + {k}))
  }

  ghost predicate Seal(s: Slot, s': Slot)
  {
    && s.phase.Copying? && (forall k: nat :: k < WORDS ==> k in s.phase.done)
    && s' == s.(guard := s.guard + 1, phase := Sealed)
  }

  ghost predicate MakeReady(s: Slot, s': Slot) { s.phase == Sealed && s' == s.(ready := true, phase := Readied) }

  ghost predicate Bump(s: Slot, s': Slot) { s.phase == Readied && s' == s.(notify := s.notify + 1, phase := Bumped) }

  ghost predicate TakeFlag(s: Slot, s': Slot)
  {
    s.phase == Bumped && s' == s.(waiters := false, phase := if s.waiters then Waking else Idle)
  }

  ghost predicate Wake(s: Slot, s': Slot) { s.phase == Waking && s' == s.(phase := Idle) }

  /** One store, exchange or system call of publish(). */
  ghost predicate PublisherStep(s: Slot, s': Slot)
  {
    || (exists d: Words :: Begin(s, s', d))
    || (exists k: nat :: CopyWord(s, s', k))
    || Seal(s, s') || MakeReady(s, s') || Bump(s, s') || TakeFlag(s, s') || Wake(s, s')
  }

  /** One step of anybody: the publisher, or a consumer raising the waiter flag, or a step elsewhere. */
  ghost predicate SlotStep(s: Slot, s': Slot)
  {
    s' == s || s' == s.(waiters := true) || PublisherStep(s, s')
  }

  ghost predicate StepAt(h: seq<Slot>, i: nat)
    requires i + 1 < |h|
  {
    SlotStep(h[i], h[i + 1])
  }

  ghost predicate SlotRun(h: seq<Slot>)
  {
    |h| > 0 && h[0] == EMPTY && forall i: nat :: i + 1 < |h| ==> StepAt(h, i)
  }

  // ------------------------------------------------------------------ invariant

  /** Publishes whose words are all in place behind an even guard. */
  function Stored(s: Slot): (n: nat) { s.guard / 2 }

  function Latest(s: Slot): (d: Words)
    requires s.published != []
  {
    s.published[|s.published| - 1]
  }

  ghost predicate Inv(s: Slot)
  {
    && s.guard == 2 * |s.published| - (if s.phase.Copying? then 1 else 0)
    && (s.phase != Idle ==> s.published != [])
    && (s.phase.Copying? ==> forall k: nat :: k < WORDS && k in s.phase.done ==> s.words[k] == Latest(s)[k])
    && (!s.phase.Copying? ==> s.words == if s.published == [] then ZEROS else Latest(s))
    && s.notify == |s.published| - (if s.phase.Copying? || s.phase == Sealed || s.phase == Readied then 1 else 0)
    && (s.ready <==> |s.published| >= 2 || (|s.published| == 1 && !s.phase.Copying? && s.phase != Sealed))
  }

  /** s' is no older than s, in every respect a reader can see. */
  ghost predicate Later(s: Slot, s': Slot)
  {
    && s.guard <= s'.guard && s.notify <= s'.notify && (s.ready ==> s'.ready)
    && |s.published| <= |s'.published|
    && forall i :: 0 <= i < |s.published| ==> s.published[i] == s'.published[i]
  }

  lemma PublisherKeepsInv(s: Slot, s': Slot)
    requires Inv(s) && PublisherStep(s, s')
    ensures Inv(s') && Later(s, s') && s'.guard <= s.guard + 1
  {
    if d: Words :| Begin(s, s', d) {
    } else if k: nat :| CopyWord(s, s', k) {
    } else if Seal(s, s') {
      assert s'.words == Latest(s');
    }
  }

  lemma StepKeepsInv(s: Slot, s': Slot)
    requires Inv(s) && SlotStep(s, s')
    ensures Inv(s') && Later(s, s') && s'.guard <= s.guard + 1
  {
    if PublisherStep(s, s') {
      PublisherKeepsInv(s, s');
    }
  }

  lemma {:induction false} RunInv(h: seq<Slot>, i: nat)
    requires SlotRun(h) && i < |h|
    ensures Inv(h[i])
  {
    if i > 0 {
      RunInv(h, i - 1);
      assert StepAt(h, i - 1);
      StepKeepsInv(h[i - 1], h[i]);
    }
  }

  lemma StepInRun(h: seq<Slot>, j: nat)
    requires SlotRun(h) && j + 1 < |h|
    ensures Inv(h[j]) && Later(h[j], h[j + 1])
  {
    RunInv(h, j);
    assert StepAt(h, j);
    StepKeepsInv(h[j], h[j + 1]);
  }

  lemma LaterTransitive(a: Slot, b: Slot, c: Slot)
    requires Later(a, b) && Later(b, c)
    ensures Later(a, c)
  {
  }

  lemma {:induction false} LaterInRun(h: seq<Slot>, i: nat, j: nat)
    requires SlotRun(h) && i <= j < |h|
    ensures Later(h[i], h[j])
    decreases j - i
  {
    if i == j {
      assert h[i] == h[j];
    } else {
      LaterInRun(h, i, j - 1);
      StepInRun(h, j - 1);
      LaterTransitive(h[i], h[j - 1], h[j]);
    }
  }

  /** Nothing a reader looks at ever goes back. */
  lemma Monotone(h: seq<Slot>, i: nat, j: nat)
    requires SlotRun(h) && i <= j < |h|
    ensures Inv(h[i]) && Inv(h[j]) && Later(h[i], h[j])
  {
    RunInv(h, i);
    RunInv(h, j);
    LaterInRun(h, i, j);
  }

  lemma OddMeansCopying(s: Slot)
    requires Inv(s)
    ensures s.guard % 2 == 1 <==> s.phase.Copying?
    ensures Stored(s) == if s.phase.Copying? then |s.published| - 1 else |s.published|
  {
  }

  /** Between two equal even guard values there was no copying, and the words did not change. */
  lemma QuietInterval(h: seq<Slot>, i: nat, m: nat, j: nat)
    requires SlotRun(h) && i <= m <= j < |h|
    requires h[i].guard == h[j].guard && h[i].guard % 2 == 0
    ensures !h[m].phase.Copying? && h[m].guard == h[i].guard && h[m].published == h[i].published
    ensures Inv(h[m]) && h[m].words == h[i].words
  {
    Monotone(h, i, m);
    Monotone(h, m, j);
    OddMeansCopying(h[i]);
    OddMeansCopying(h[m]);
    assert h[m].published == h[i].published;
  }

  /** If the guard moved between two even values, a copy was in progress at some instant in between. */
  lemma {:induction false} MovedMeansCopying(h: seq<Slot>, i: nat, j: nat) returns (m: nat)
    requires SlotRun(h) && i <= j < |h|
    requires h[i].guard != h[j].guard || h[i].guard % 2 == 1 || h[j].guard % 2 == 1
    ensures i <= m <= j && h[m].phase.Copying?
    decreases j - i
  {
    RunInv(h, i);
    RunInv(h, j);
    OddMeansCopying(h[i]);
    OddMeansCopying(h[j]);
    if h[i].guard % 2 == 1 {
      m := i;
    } else if h[j].guard % 2 == 1 {
      m := j;
    } else {
      assert i < j && StepAt(h, i);
      StepKeepsInv(h[i], h[i + 1]);
      m := MovedMeansCopying(h, i + 1, j);
    }
  }

  // ------------------------------------------------------------------ versions

  /** Publish v of the slot, counted from 0, carries seqno v + 1: none is skipped. */
  ghost predicate Versioned(published: seq<Words>)
  {
    forall v :: 0 <= v < |published| ==> Seqno(published[v]) == Wrap64(v + 1)
  }

  /** A run on which seqnos have not wrapped yet. */
  ghost predicate SlotHistory(h: seq<Slot>)
  {
    SlotRun(h) && Versioned(h[|h| - 1].published) && |h[|h| - 1].published| < TWO_64
  }

  // ------------------------------------------------------------------ reader

  /** One pass of the reader's loop: it looked at the slot from position `from` to position `to` of the run. */
  datatype Attempt = Attempt(from: nat, to: nat)

  ghost predicate Overlaps(h: seq<Slot>, a: Attempt)
    requires a.to < |h|
  {
    exists m :: a.from <= m <= a.to && h[m].phase.Copying?
  }

  /** The passes lie one after the other inside [start, end]. */
  ghost predicate InOrder(attempts: seq<Attempt>, start: nat, end: nat)
  {
    && (forall i :: 0 <= i < |attempts| ==> start <= attempts[i].from <= attempts[i].to <= end)
    && (forall i, j :: 0 <= i < j < |attempts| ==> attempts[i].to <= attempts[j].from)
  }

  /** `d` is what the slot holds at this instant, behind an even guard. */
  ghost predicate Current(s: Slot, d: Words)
  {
    !s.phase.Copying? && s.published != [] && d == Latest(s)
  }

  /** Word k of `tmp` was loaded at position at[k] of the run, between `start` and `now`. */
  ghost predicate LoadedAt(h: seq<Slot>, start: nat, now: nat, tmp: Words, at: seq<nat>)
    requires now < |h|
  {
    |at| == WORDS && forall k :: 0 <= k < WORDS ==> start <= at[k] <= now && tmp[k] == h[at[k]].words[k]
  }

  /** The plain struct copy: 18 loads, in any order, at any later instants. */
  method CopyOut(h: seq<Slot>, start: nat) returns (tmp: Words, now: nat, ghost at: seq<nat>)
    requires SlotRun(h) && start < |h|
    ensures start <= now < |h| && LoadedAt(h, start, now, tmp, at)
  {
    now, tmp := start, ZEROS;
    at := seq(WORDS, _ => start);
    var todo: set<nat> := {0, 1, 2, 3, 4, 5, 6, 7, 8, 9, 10, 11, 12, 13, 14, 15, 16, 17};
    while todo != {}
      invariant start <= now < |h| && |at| == WORDS
      invariant forall k :: k in todo ==> k < WORDS
      invariant forall k :: 0 <= k < WORDS && k !in todo ==> start <= at[k] <= now && tmp[k] == h[at[k]].words[k]
      decreases todo
    {
      var k :| k in todo;
      var next: nat :| now <= next < |h|;
      now := next;
      tmp := tmp[k := h[now].words[k]];
      at := at[k := now];
      todo := todo - {k};
    }
  }

  /** What a successful read hands out: one published record, current all through the pass that read it, at least as
      new as whatever was in place when the call began. */
  ghost predicate Delivered(h: seq<Slot>, start: nat, last: Attempt, out: Words)
  {
    && start <= last.from <= last.to < |h|
    && !Overlaps(h, last)
    && (forall m :: last.from <= m <= last.to ==> Current(h[m], out))
    && Stored(h[start]) <= Stored(h[last.from])
  }

  /** Publishes are numbered from 1: what is current is number Stored. */
  lemma CurrentIsStored(h: seq<Slot>, i: nat, j: nat, d: Words)
    requires SlotRun(h) && i <= j < |h| && Current(h[i], d)
    ensures 1 <= Stored(h[i]) <= |h[j].published| && d == h[j].published[Stored(h[i]) - 1]
  {
    Monotone(h, i, j);
  }

  /** While seqnos have not wrapped, the current record carries its own number. */
  lemma CurrentIsVersioned(h: seq<Slot>, i: nat, d: Words)
    requires SlotHistory(h) && i < |h| && Current(h[i], d)
    ensures Seqno(d) == Stored(h[i]) >= 1
  {
    CurrentIsStored(h, i, |h| - 1, d);
    var v: nat := Stored(h[i]) - 1;
    assert Seqno(h[|h| - 1].published[v]) == Wrap64(v + 1) == v + 1;
  }

  /** The heart of the seqlock: words copied between two equal even guard values are one published record. */
  lemma QuietRead(h: seq<Slot>, begin: nat, t0: nat, t1: nat, t2: nat, tmp: Words, at: seq<nat>)
    requires SlotRun(h) && begin <= t0 <= t1 <= t2 < |h| && h[begin].ready
    requires h[t0].guard == h[t2].guard && h[t0].guard % 2 == 0
    requires LoadedAt(h, t0, t1, tmp, at)
    ensures forall m :: t0 <= m <= t2 ==> Current(h[m], tmp)
  {
    forall m | t0 <= m <= t2
      ensures !h[m].phase.Copying? && h[m].published == h[t0].published && h[m].words == h[t0].words
    {
      QuietInterval(h, t0, m, t2);
    }
    Monotone(h, begin, t0);
    assert tmp == h[t0].words;
  }

  /** One pass: load the guard, copy, load it again. `fresh` says the two loads agreed on an even value. */
  method ReadPass(h: seq<Slot>, start: nat) returns (good: bool, out: Words, now: nat, ghost pass: Attempt)
    requires SlotRun(h) && start < |h| && h[start].ready
    ensures start <= pass.from <= pass.to == now < |h|
    ensures good <==> !Overlaps(h, pass)
    ensures good ==> forall m :: pass.from <= m <= pass.to ==> Current(h[m], out)
  {
    var t0: nat :| start <= t0 < |h|;
    var before := h[t0].guard;
    RunInv(h, t0);
    if before % 2 == 1 {
      assert h[t0].phase.Copying?;
      return false, EMPTY.words, t0, Attempt(t0, t0);
    }
    var tmp, t1;
    ghost var at;
    tmp, t1, at := CopyOut(h, t0);
    now :| t1 <= now < |h|;
    var after := h[now].guard;
    pass := Attempt(t0, now);
    if before == after {
      QuietRead(h, start, t0, t1, now, tmp, at);
      return true, tmp, now, pass;
    }
    ghost var m := MovedMeansCopying(h, t0, now);
    return false, EMPTY.words, now, pass;
  }

  /** read_latest, over any run of the slot, starting at position `start`. `attempts` lists the failed passes. */
  method ReadLatest(h: seq<Slot>, start: nat, maxRetry: int)
    returns (ok: bool, out: Words, retries: int, now: nat, ghost attempts: seq<Attempt>, ghost last: Attempt)
    requires SlotRun(h) && start < |h|
    ensures start <= now < |h|
    ensures InOrder(attempts, start, now)
    ensures forall i :: 0 <= i < |attempts| ==> Overlaps(h, attempts[i])
    ensures ok ==> last.to == now && Delivered(h, start, last, out)
    ensures ok ==> InOrder(attempts + [last], start, now) && retries == |attempts| <= maxRetry
    ensures !ok && h[start].ready ==> |attempts| == if maxRetry < 0 then 0 else maxRetry + 1
    ensures !ok ==> retries == if |attempts| == 0 then 0 else |attempts| - 1
  {
    attempts, last := [], Attempt(start, start);
    ok, out, retries := false, EMPTY.words, 0;
    now :| start <= now < |h|;
    Monotone(h, start, now);
    if !h[now].ready { return; }
    var retry := 0;
    while retry <= maxRetry
      invariant start <= now < |h| && h[now].ready
      invariant retries == if retry == 0 then 0 else retry - 1
      invariant 0 <= retry && (maxRetry >= 0 ==> retry <= maxRetry + 1) && (maxRetry < 0 ==> retry == 0)
      invariant |attempts| == retry && InOrder(attempts, start, now)
      invariant forall i :: 0 <= i < |attempts| ==> Overlaps(h, attempts[i])
    {
      ghost var from := now;
      ok, out, now, last := ReadPass(h, now);
      retries := retry;
      if ok {
        Monotone(h, start, last.from);
        return;
      }
      Monotone(h, from, now);
      attempts := attempts + [last];
      retry := retry + 1;
    }
  }
}
