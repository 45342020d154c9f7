/** The mixed-stream consumer's tally: which frames it counts, and the delivery rate it reports. */
module Tally {
  import opened Edf

  ghost predicate Increasing(s: seq<nat>) { forall i, j :: 0 <= i < j < |s| ==> s[i] < s[j] }

  /** What the three counters of one stream say about the frames counted. */
  ghost predicate Counts(counted: seq<nat>, first: nat, last: nat, seen: nat)
  {
    && seen == |counted| && Increasing(counted)
    && if counted == [] then first == 0 && last == 0 else first == counted[0] > 0 && last == counted[|counted| - 1]
  }

  /** Increasing numbers span at least as many as there are, and exactly as many only without a gap. */
  lemma {:induction false} SpanCovers(s: seq<nat>)
    requires Increasing(s) && s != []
    ensures |s| <= s[|s| - 1] - s[0] + 1
    ensures |s| == s[|s| - 1] - s[0] + 1 <==> forall k :: 0 <= k < |s| ==> s[k] == s[0] + k
  {
    if |s| > 1 {
      SpanCovers(s[..|s| - 1]);
    }
  }

  lemma OneMoreCounted(counted: seq<nat>, first: nat, last: nat, seen: nat, head: nat)
    requires Counts(counted, first, last, seen) && head > last
    ensures Counts(counted + [head], if first == 0 then head else first, head, seen + 1)
  {
  }

  ghost function TotalCounted(counted: seq<seq<nat>>): (n: nat)
  {
    if counted == [] then 0 else TotalCounted(counted[..|counted| - 1]) + |counted[|counted| - 1]|
  }

  /** From the first number counted to the last. */
  ghost function Span(counted: seq<nat>): (n: nat)
    requires counted != [] && Increasing(counted)
    ensures n > 0
  {
    SpanCovers(counted);
    counted[|counted| - 1] - counted[0] + 1
  }

  ghost predicate Gapless(counted: seq<nat>)
  {
    forall k :: 0 <= k < |counted| ==> counted[k] == counted[0] + k
  }

  lemma RateOf(counted: seq<nat>)
    requires counted != [] && Increasing(counted)
    ensures var d := |counted| as real / Span(counted) as real;
            0.0 < d <= 1.0 && (d == 1.0 <==> Gapless(counted))
  {
    SpanCovers(counted);
    var n, m := |counted| as real, Span(counted) as real;
    assert n / m * m == n;
    if n < m {
      assert n / m < 1.0;
    }
  }

  class Tally {
    const streams: seq<Stream>
    const windowNs: nat
    const lastSeq: array<nat>
    const firstSeq: array<nat>
    const seen: array<nat>
    var torn: nat
    var openNs: nat
    ghost var counted: seq<seq<nat>>   // per stream, the numbers counted so far

    ghost predicate Valid()
      reads this, lastSeq, firstSeq, seen
    {
      && lastSeq != firstSeq && lastSeq != seen && firstSeq != seen
      && lastSeq.Length == firstSeq.Length == seen.Length == |streams| == |counted|
      && forall i :: 0 <= i < |counted| ==> Counts(counted[i], firstSeq[i], lastSeq[i], seen[i])
    }

    constructor (s: seq<Stream>, seconds: nat)
      ensures Valid() && streams == s && windowNs == seconds * SECOND && openNs == 0 && torn == 0
      ensures fresh(lastSeq) && fresh(firstSeq) && fresh(seen)
    {
      streams, windowNs, torn, openNs := s, seconds * SECOND, 0, 0;
      lastSeq := new nat[|s|](_ => 0);
      firstSeq := new nat[|s|](_ => 0);
      seen := new nat[|s|](_ => 0);
      counted := seq(|s|, _ => []);
    }

    method Count(i: nat, head: nat)
      requires Valid() && i < |streams| && head > lastSeq[i]
      modifies this`counted, lastSeq, firstSeq, seen
      ensures Valid() && counted == old(counted)[i := old(counted)[i] + [head]]
    {
      OneMoreCounted(counted[i], firstSeq[i], lastSeq[i], seen[i], head);
      if firstSeq[i] == 0 { firstSeq[i] := head; }
      lastSeq[i] := head;
      seen[i] := seen[i] + 1;
      counted := counted[i := counted[i] + [head]];
    }

    /** frame: the first one opens the window; what is torn, late or no newer than the last is not counted. */
    method FrameArrives(i: nat, now: nat, head: nat, tail: nat)
      requires Valid() && i < |streams|
      modifies this, lastSeq, firstSeq, seen
      ensures Valid() && openNs == if old(openNs) == 0 then now else old(openNs)
      ensures var inside := now < openNs + windowNs;
              && torn == old(torn) + (if inside && head != tail then 1 else 0)
              && counted == if inside && head == tail && head > old(lastSeq[i])
                            then old(counted)[i := old(counted)[i] + [head]] else old(counted)
    {
      if openNs == 0 { openNs := now; }
      if now >= openNs + windowNs { return; }
      if head != tail {
        torn := torn + 1;
        return;
      }
      if head <= lastSeq[i] { return; }
      Count(i, head);
    }

    /** Frames counted over frames sent in the window; a stream never seen is measured against its nominal rate. */
    ghost function Delivery(i: nat, seconds: nat): (d: real)
      reads this, lastSeq, firstSeq, seen
      requires Valid() && i < |streams| && streams[i].hz * seconds > 0
    {
      if seen[i] > 0 then seen[i] as real / Span(counted[i]) as real else 0.0
    }

    /** d is the delivery of stream i, which is 1 exactly if it was seen, and without a gap. */
    ghost predicate IsRate(d: real, i: nat, seconds: nat)
      reads this, lastSeq, firstSeq, seen
      requires Valid() && i < |streams| && streams[i].hz * seconds > 0
    {
      d == Delivery(i, seconds) && 0.0 <= d <= 1.0 && (d == 1.0 <==> counted[i] != [] && Gapless(counted[i]))
    }

    method Rate(i: nat, seconds: nat) returns (d: real)
      requires Valid() && i < |streams| && streams[i].hz * seconds > 0
      ensures IsRate(d, i, seconds)
    {
      assert Counts(counted[i], firstSeq[i], lastSeq[i], seen[i]);
      if seen[i] > 0 { RateOf(counted[i]); }
      var span := if seen[i] > 0 then lastSeq[i] - firstSeq[i] + 1 else streams[i].hz * seconds;
      d := seen[i] as real / span as real;
    }

    /** report: the worst delivery of all streams. It is never above 1, and it is 1 only if no stream lost a frame
        between the first and the last it saw. */
    method Report(seconds: nat) returns (worst: real, worstI: nat, total: nat, ghost rates: seq<real>)
      requires Valid() && streams != [] && forall i :: 0 <= i < |streams| ==> streams[i].hz * seconds > 0
      ensures |rates| == |streams| && forall i :: 0 <= i < |streams| ==> IsRate(rates[i], i, seconds)
      ensures worstI < |streams| && worst == rates[worstI] && forall i :: 0 <= i < |rates| ==> worst <= rates[i]
      ensures total == TotalCounted(counted)
    {
      worst, worstI, total, rates := 2.0, 0, 0, [];
      for i := 0 to |streams|
        invariant |rates| == i && if i == 0 then worst == 2.0 else worstI < i && worst == rates[worstI]
        invariant forall j :: 0 <= j < i ==> worst <= rates[j]
        invariant forall j :: 0 <= j < i ==> IsRate(rates[j], j, seconds)
        invariant total == TotalCounted(counted[..i])
      {
        var d := Rate(i, seconds);
        if d < worst { worst, worstI := d, i; }
        rates := rates + [d];
        assert counted[..i + 1][..i] == counted[..i];
        assert Counts(counted[i], firstSeq[i], lastSeq[i], seen[i]);
        total := total + seen[i];
      }
      assert counted[..|streams|] == counted;
    }
  }
}
