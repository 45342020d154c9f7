/** How deep the publisher's ring must be for a reader to keep its buffer. */
module LapBound {
  import opened Machine
  import opened Descriptor
  import opened Seqlock
  import opened Publisher

  /** ceil(t / p) for whole nanoseconds. */
  function CeilDiv(t: nat, p: nat): (q: nat)
    requires p > 0
  {
    (t + p - 1) / p
  }

  lemma ScaleInt(a: int, b: int, p: nat)
    ensures a <= b ==> a * p <= b * p
    ensures a < b ==> a * p + p <= b * p
  {
    if a < b {
      assert (b - a - 1) * p >= 0;
    }
  }

  lemma CeilDivIsLeast(t: nat, p: nat, k: nat)
    requires p > 0
    ensures CeilDiv(t, p) <= k <==> t <= k * p
  {
    var q := CeilDiv(t, p);
    var rest := (t + p - 1) % p;
    assert t + p - 1 == q * p + rest;
    ScaleInt(q, k, p);
    ScaleInt(k, q, p);
  }

  ghost predicate Apart(turns: seq<Turn>, k: nat, period: nat)
    requires k + 1 < |turns|
  {
    turns[k].acquired + period <= turns[k + 1].acquired
  }

  /** A buffer that is published is published between its acquire and the next. */
  ghost predicate Sequential(turns: seq<Turn>, k: nat)
    requires k < |turns|
  {
    turns[k].published.Some? ==>
      turns[k].acquired <= turns[k].published.value
      && (k + 1 < |turns| ==> turns[k].published.value <= turns[k + 1].acquired)
  }

  /** Among the r + 1 turns after k, at least one is published. */
  ghost predicate PublishedSoon(turns: seq<Turn>, k: nat, r: nat)
    requires k + r + 1 < |turns|
  {
    exists j :: k < j <= k + r + 1 && turns[j].published.Some?
  }

  /** What a ring of n buffers goes through when acquires are at least `period` apart and at most r in a row go
      unpublished. The last turn may still be open. */
  ghost predicate Schedule(turns: seq<Turn>, n: nat, period: nat, r: nat)
  {
    && RoundRobin(turns)
    && (forall k :: 0 <= k < |turns| ==> turns[k].depth == n)
    && (forall k: nat :: k + 1 < |turns| ==> Apart(turns, k, period))
    && (forall k: nat :: k < |turns| ==> Sequential(turns, k))
    && (forall k: nat :: k + r + 2 < |turns| ==> PublishedSoon(turns, k, r))
  }

  /** At time t the metadata names the buffer of turn i: it is published, and no later one is published before t. */
  ghost predicate CurrentAt(turns: seq<Turn>, i: nat, t: int)
  {
    && i < |turns| && turns[i].published.Some? && turns[i].published.value <= t
    && forall j :: i < j < |turns| && turns[j].published.Some? ==> t <= turns[j].published.value
  }

  /** Whatever is read at t keeps its buffer until t + hold: no later acquire before then hands it out again. */
  ghost predicate Safe(turns: seq<Turn>, hold: nat)
  {
    forall i: nat, t: int, k: nat :: CurrentAt(turns, i, t) && i < k < |turns| && turns[k].buffer == turns[i].buffer ==>
      t + hold <= turns[k].acquired
  }

  lemma {:induction false} SpreadOut(turns: seq<Turn>, n: nat, period: nat, r: nat, a: nat, b: nat)
    requires Schedule(turns, n, period, r) && a <= b < |turns|
    ensures turns[a].acquired + (b - a) * period <= turns[b].acquired
    decreases b - a
  {
    if a < b {
      SpreadOut(turns, n, period, r, a, b - 1);
      assert Apart(turns, b - 1, period);
      assert (b - a) * period == (b - 1 - a) * period + period;
    }
  }

  /** Two turns with the same buffer are at least n apart. */
  lemma SameBuffer(turns: seq<Turn>, n: nat, i: nat, k: nat)
    requires RoundRobin(turns) && i < k < |turns| && turns[i].depth == turns[k].depth == n
    requires turns[i].buffer == turns[k].buffer
    ensures n > 0 && k - i >= n
  {
    assert TurnOf(turns[i], i) && TurnOf(turns[k], k);
    var a, b := i / n, k / n;
    assert i == a * n + i % n && k == b * n + k % n;
    assert k - i == (b - a) * n;
    ScaleInt(b - a, 0, n);
    ScaleInt(1, b - a, n);
  }

  /** The bound. */
  lemma DeepRingIsSafe(turns: seq<Turn>, n: nat, period: nat, r: nat, hold: nat)
    requires Schedule(turns, n, period, r) && period > 0
    requires n >= CeilDiv(hold, period) + 2 + r
    ensures Safe(turns, hold)
  {
    forall i: nat, t: int, k: nat
      | CurrentAt(turns, i, t) && i < k < |turns| && turns[k].buffer == turns[i].buffer
      ensures t + hold <= turns[k].acquired
    {
      SameBuffer(turns, n, i, k);
      assert PublishedSoon(turns, i, r);
      var j :| i < j <= i + r + 1 && turns[j].published.Some?;
      assert Sequential(turns, j);
      assert t <= turns[j + 1].acquired;
      SpreadOut(turns, n, period, r, j + 1, k);
      var gap: nat := k - j - 1;
      CeilDivIsLeast(hold, period, gap);
    }
  }

  /** `clock` is when the slot's history reached each of its positions; a turn's time of publication is the instant at
      which its record became readable. */
  ghost predicate OnClock(turns: seq<Turn>, hist: seq<Slot>, clock: seq<int>)
  {
    && |clock| == |hist|
    && forall k, q :: 0 <= k < |turns| && turns[k].published.Some? && 0 <= q < |hist| ==>
         if turns[k].version <= Stored(hist[q]) then turns[k].published.value <= clock[q]
         else clock[q] <= turns[k].published.value
  }

  /** The record a reader gets at position p of the slot's history is current then, and so is its turn. */
  lemma RecordIsCurrent(turns: seq<Turn>, published: seq<Words>, hist: seq<Slot>, clock: seq<int>, p: nat, i: nat)
    requires TurnsMatch(turns, published) && OnClock(turns, hist, clock) && p < |hist| && i < |turns|
    requires turns[i].published.Some? && turns[i].version == Stored(hist[p])
    ensures CurrentAt(turns, i, clock[p])
  {
    forall j | i < j < |turns| && turns[j].published.Some? ensures clock[p] <= turns[j].published.value {
      assert turns[i].version < turns[j].version;
    }
  }

  /** The bound for a record that is read: whatever reader gets record d from the publisher's slot at position p, the
      buffer d names is not acquired again until `hold` later. Turn i is the one d was published for. */
  lemma RecordKeepsItsBuffer(pub: TensorPublisher, n: nat, period: nat, r: nat, hold: nat, clock: seq<int>,
                             p: nat, d: Words, i: nat, k: nat)
    requires pub.Valid() && SlotHistory(pub.meta.hist)
    requires Schedule(pub.turns, n, period, r) && period > 0 && n >= CeilDiv(hold, period) + 2 + r
    requires OnClock(pub.turns, pub.meta.hist, clock) && p < |pub.meta.hist| && Current(pub.meta.hist[p], d)
    requires i < k < |pub.turns| && pub.turns[i].published.Some? && pub.turns[i].version == Seqno(d)
    requires pub.turns[k].buffer == BoHandle(d)
    ensures clock[p] + hold <= pub.turns[k].acquired
  {
    var h := pub.meta.hist;
    CurrentIsVersioned(h, p, d);
    CurrentIsStored(h, p, |h| - 1, d);
    assert NamesBuffer(pub.turns[i], pub.meta.published);
    RecordIsCurrent(pub.turns, pub.meta.published, h, clock, p, i);
    DeepRingIsSafe(pub.turns, n, period, r, hold);
    assert pub.turns[k].buffer == pub.turns[i].buffer;
  }

  /** The tight schedule: a published turn, r unpublished ones, then one published at the last moment. */
  function Tight(n: nat, period: nat, r: nat, length: nat): (turns: seq<Turn>)
    requires n > 0
    ensures |turns| == length
  {
    seq(length, k requires 0 <= k => Turn(n, k % n, k * period,
      if k == 0 then Some(0)
      else if 1 <= k <= r then None
      else Some(k * period + period), k))
  }

  lemma TightIsSchedule(n: nat, period: nat, r: nat, length: nat)
    requires n > 0
    ensures Schedule(Tight(n, period, r, length), n, period, r)
  {
    var turns := Tight(n, period, r, length);
    forall k: nat | k < length ensures TurnOf(turns[k], k) && Sequential(turns, k) {
      assert (k + 1) * period == k * period + period;
    }
    forall k: nat | k + 1 < length ensures Apart(turns, k, period) {
      assert (k + 1) * period == k * period + period;
    }
    forall k: nat | k + r + 2 < length ensures PublishedSoon(turns, k, r) {
      assert turns[k + r + 1].published.Some?;
    }
  }

  lemma TooEarly(n: nat, period: nat, r: nat, hold: nat)
    requires period > 0 && n < CeilDiv(hold, period) + 2 + r
    ensures n * period < (r + 2) * period + hold
  {
    if n >= r + 2 {
      var k: nat := n - r - 2;
      CeilDivIsLeast(hold, period, k);
      assert n * period == k * period + (r + 2) * period;
    } else {
      ScaleInt(n, r + 2, period);
    }
  }

  /** In a ring that is any smaller, the tight schedule hands the buffer out too early. */
  lemma ShallowRingIsUnsafe(n: nat, period: nat, r: nat, hold: nat)
    requires n > 0 && period > 0 && n < CeilDiv(hold, period) + 2 + r
    ensures !Safe(Tight(n, period, r, n + r + 2), hold)
  {
    var turns := Tight(n, period, r, n + r + 2);
    var t := (r + 2) * period;
    forall j | 0 < j < |turns| && turns[j].published.Some? ensures t <= turns[j].published.value {
      ScaleInt(r + 1, j, period);
      ScaleInt(r + 1, r + 2, period);
      assert (r + 2) * period == (r + 1) * period + period;
    }
    ScaleInt(0, r + 2, period);
    assert CurrentAt(turns, 0, t);
    assert turns[n].buffer == n % n == 0 == turns[0].buffer;
    TooEarly(n, period, r, hold);
  }

  /** Exactly this depth is enough, and no smaller one is. */
  lemma DepthIsExact(n: nat, period: nat, r: nat, hold: nat)
    requires n > 0 && period > 0
    ensures (forall turns :: Schedule(turns, n, period, r) ==> Safe(turns, hold))
            <==> n >= CeilDiv(hold, period) + 2 + r
  {
    if n >= CeilDiv(hold, period) + 2 + r {
      forall turns | Schedule(turns, n, period, r) ensures Safe(turns, hold) {
        DeepRingIsSafe(turns, n, period, r, hold);
      }
    } else {
      TightIsSchedule(n, period, r, n + r + 2);
      ShallowRingIsUnsafe(n, period, r, hold);
    }
  }

  /** The documented size, ceil(hold * rate) + readers + margin, is enough exactly for as many unpublished acquires in
      a row as readers + margin exceeds 2. */
  lemma DocumentedSize(period: nat, hold: nat, readers: nat, margin: nat, r: nat)
    requires period > 0 && readers >= 1 && margin >= 1
    ensures var n := CeilDiv(hold, period) + readers + margin;
            (forall turns :: Schedule(turns, n, period, r) ==> Safe(turns, hold)) <==> r <= readers + margin - 2
  {
    DepthIsExact(CeilDiv(hold, period) + readers + margin, period, r, hold);
  }
}
