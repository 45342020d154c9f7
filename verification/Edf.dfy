/** The mixed-stream producer: one thread that serves every stream's deadlines, earliest first. */
module Edf {
  const SECOND: nat := 1_000_000_000

  datatype Stream = Stream(bytes: nat, hz: nat, heavy: bool)

  /** Frame `number` of a stream, due at `deadline`. */
  datatype Frame = Frame(stream: nat, number: nat, deadline: nat)

  /** When each stream's frames fall due. */
  datatype Plan = Plan(first: seq<nat>, period: seq<nat>, end: nat)

  predicate ValidPlan(p: Plan)
  {
    |p.first| == |p.period| && p.first != [] && forall i :: 0 <= i < |p.period| ==> p.period[i] > 0
  }

  /** When frame k of stream i, counted from 0, falls due. */
  ghost function Deadline(p: Plan, i: nat, k: nat): (d: nat)
    requires ValidPlan(p) && i < |p.first|
  {
    if k == 0 then p.first[i] else Deadline(p, i, k - 1) + p.period[i]
  }

  lemma {:induction false} DeadlineIsArithmetic(p: Plan, i: nat, k: nat)
    requires ValidPlan(p) && i < |p.first|
    ensures Deadline(p, i, k) == p.first[i] + k * p.period[i]
  {
    if k > 0 {
      DeadlineIsArithmetic(p, i, k - 1);
      assert k * p.period[i] == (k - 1) * p.period[i] + p.period[i];
    }
  }

  lemma {:induction false} DeadlinesGrow(p: Plan, i: nat, k: nat, m: nat)
    requires ValidPlan(p) && i < |p.first| && k <= m
    ensures Deadline(p, i, k) <= Deadline(p, i, m)
    ensures k < m ==> Deadline(p, i, k) < Deadline(p, i, m)
    decreases m - k
  {
    if k < m {
      DeadlinesGrow(p, i, k, m - 1);
    }
  }

  /** The frames the plan asks for: all those due before the end. */
  ghost predicate Planned(p: Plan, f: Frame)
    requires ValidPlan(p)
  {
    f.stream < |p.first| && f.number >= 1 && f.deadline == Deadline(p, f.stream, f.number - 1) < p.end
  }

  /** Earlier deadline first, and on a tie the stream listed first. */
  ghost predicate Before(a: Frame, b: Frame)
  {
    a.deadline < b.deadline || (a.deadline == b.deadline && a.stream < b.stream)
  }

  ghost predicate Ordered(log: seq<Frame>) { forall q, r :: 0 <= q < r < |log| ==> Before(log[q], log[r]) }

  // ------------------------------------------------------------------ the loop's invariant

  /** Stream i has sent `count` frames, and is due for the next. */
  ghost predicate StreamAt(p: Plan, i: nat, due: nat, count: nat)
    requires ValidPlan(p) && i < |p.first|
  {
    due == Deadline(p, i, count) && (count > 0 ==> Deadline(p, i, count - 1) < p.end)
  }

  ghost predicate InLog(p: Plan, i: nat, k: nat, log: seq<Frame>)
    requires ValidPlan(p) && i < |p.first|
  {
    Frame(i, k + 1, Deadline(p, i, k)) in log
  }

  /** The streams' clocks, and the frames of each that are out. */
  ghost predicate Clocks(p: Plan, due: seq<nat>, count: seq<nat>)
  {
    && ValidPlan(p) && |due| == |count| == |p.first|
    && forall i :: 0 <= i < |due| ==> StreamAt(p, i, due[i], count[i])
  }

  ghost predicate Complete(p: Plan, count: seq<nat>, log: seq<Frame>)
    requires ValidPlan(p) && |count| == |p.first|
  {
    && (forall f :: f in log ==> Planned(p, f) && f.number <= count[f.stream])
    && (forall i, k :: 0 <= i < |count| && 0 <= k < count[i] ==> InLog(p, i, k, log))
  }

  /** Everything sent comes before everything due. */
  ghost predicate Sorted(due: seq<nat>, log: seq<Frame>)
  {
    Ordered(log) && forall f, i :: f in log && 0 <= i < |due| ==> Before(f, Frame(i, 0, due[i]))
  }

  ghost predicate Served(p: Plan, due: seq<nat>, count: seq<nat>, log: seq<Frame>)
  {
    Clocks(p, due, count) && Complete(p, count, log) && Sorted(due, log)
  }

  ghost predicate FirstMinimum(due: seq<nat>, m: nat)
  {
    && m < |due|
    && (forall i :: 0 <= i < |due| ==> due[m] <= due[i])
    && (forall i :: 0 <= i < m ==> due[m] < due[i])
  }

  lemma ClockMoves(p: Plan, due: seq<nat>, count: seq<nat>, m: nat)
    requires Clocks(p, due, count) && m < |due| && due[m] < p.end
    ensures Clocks(p, due[m := due[m] + p.period[m]], count[m := count[m] + 1])
  {
    var due', count' := due[m := due[m] + p.period[m]], count[m := count[m] + 1];
    assert StreamAt(p, m, due[m], count[m]);
    forall i | 0 <= i < |due'| ensures StreamAt(p, i, due'[i], count'[i]) {
      assert StreamAt(p, i, due[i], count[i]);
    }
  }

  lemma StaysComplete(p: Plan, due: seq<nat>, count: seq<nat>, log: seq<Frame>, m: nat)
    requires Clocks(p, due, count) && Complete(p, count, log) && m < |due| && due[m] < p.end
    ensures Complete(p, count[m := count[m] + 1], log + [Frame(m, count[m] + 1, due[m])])
  {
    var f := Frame(m, count[m] + 1, due[m]);
    var count', log' := count[m := count[m] + 1], log + [f];
    assert StreamAt(p, m, due[m], count[m]);
    forall i, k | 0 <= i < |count'| && 0 <= k < count'[i] ensures InLog(p, i, k, log') {
      if i != m || k < count[m] {
        assert InLog(p, i, k, log);
      } else {
        assert f in log';
      }
    }
  }

  lemma StaysSorted(due: seq<nat>, log: seq<Frame>, m: nat, number: nat, later: nat)
    requires Sorted(due, log) && FirstMinimum(due, m) && due[m] < later
    ensures Sorted(due[m := later], log + [Frame(m, number, due[m])])
  {
    var g, due', log' := Frame(m, number, due[m]), due[m := later], log + [Frame(m, number, due[m])];
    forall f, i | f in log' && 0 <= i < |due'| ensures Before(f, Frame(i, 0, due'[i])) {
      if f in log {
        assert Before(f, Frame(i, 0, due[i]));
      }
    }
    forall q | 0 <= q < |log| ensures Before(log[q], g) {
      assert log[q] in log && Before(log[q], Frame(m, 0, due[m]));
    }
  }

  function Left(due: nat, end: nat): nat { if due < end then end - due else 0 }

  function TotalLeft(due: seq<nat>, end: nat): (t: nat)
  {
    if due == [] then 0 else TotalLeft(due[..|due| - 1], end) + Left(due[|due| - 1], end)
  }

  lemma {:induction false} LessLeft(due: seq<nat>, end: nat, m: nat, later: nat)
    requires m < |due| && due[m] < end && due[m] < later
    ensures TotalLeft(due[m := later], end) < TotalLeft(due, end)
  {
    var n := |due| - 1;
    if m == n {
      assert due[m := later][..n] == due[..n];
    } else {
      assert due[m := later][..n] == due[..n][m := later];
      LessLeft(due[..n], end, m, later);
    }
  }

  /** Serving the first of the earliest deadlines keeps it all. */
  lemma ServeOne(p: Plan, due: seq<nat>, count: seq<nat>, log: seq<Frame>, m: nat)
    requires Served(p, due, count, log) && FirstMinimum(due, m) && due[m] < p.end
    ensures Served(p, due[m := due[m] + p.period[m]], count[m := count[m] + 1],
                   log + [Frame(m, count[m] + 1, due[m])])
    ensures TotalLeft(due[m := due[m] + p.period[m]], p.end) < TotalLeft(due, p.end)
  {
    ClockMoves(p, due, count, m);
    StaysComplete(p, due, count, log, m);
    StaysSorted(due, log, m, count[m] + 1, due[m] + p.period[m]);
    LessLeft(due, p.end, m, due[m] + p.period[m]);
  }

  // ------------------------------------------------------------------ the producer

  /** min_element. */
  method EarliestDue(due: array<nat>) returns (m: nat)
    requires due.Length > 0
    ensures FirstMinimum(due[..], m)
  {
    m := 0;
    for i := 1 to due.Length
      invariant 0 <= m < i
      invariant forall j :: 0 <= j < i ==> due[m] <= due[j]
      invariant forall j :: 0 <= j < m ==> due[m] < due[j]
    {
      if due[i] < due[m] { m := i; }
    }
  }

  function PeriodOf(s: Stream): (ns: nat)
    requires s.hz > 0
    ensures s.hz <= SECOND ==> ns > 0
  {
    SECOND / s.hz
  }

  /** The first i of n equal parts of x. */
  function Share(x: nat, i: nat, n: nat): (part: nat)
    requires n > 0
  {
    var y: nat := x * i;
    y / n
  }

  /** MSTREAM_STAGGER: the first deadlines are spread over one period. */
  function Stagger(s: Stream, i: nat, n: nat): (ns: nat)
    requires s.hz > 0 && n > 0
  {
    Share(PeriodOf(s), i, n)
  }

  lemma PartBelow(x: nat, i: nat, n: nat)
    requires i < n && x > 0
    ensures x * i < n * x
  {
    var d: nat := n - i - 1;
    assert n * x == (i + 1 + d) * x == i * x + x + d * x;
  }

  lemma Quotient(y: nat, n: nat, x: nat)
    requires n > 0 && y < n * x
    ensures y / n < x
  {
    assert y / n * n <= y;
  }

  lemma StaggerIsWithinAPeriod(s: Stream, i: nat, n: nat)
    requires 0 < s.hz <= SECOND && i < n
    ensures Stagger(s, i, n) < PeriodOf(s)
  {
    var x := PeriodOf(s);
    PartBelow(x, i, n);
    var y: nat := x * i;
    assert y < n * x;
    Quotient(y, n, x);
  }

  function FirstDue(streams: seq<Stream>, start: nat, stagger: bool, i: nat): (d: nat)
    requires i < |streams| && streams[i].hz > 0
  {
    start + if stagger then Stagger(streams[i], i, |streams|) else 0
  }

  function PlanOf(streams: seq<Stream>, start: nat, seconds: nat, stagger: bool): (p: Plan)
    requires streams != [] && forall s :: s in streams ==> 0 < s.hz <= SECOND
    ensures ValidPlan(p)
  {
    var n := |streams|;
    Plan(seq(n, i requires 0 <= i < n => FirstDue(streams, start, stagger, i)),
         seq(n, i requires 0 <= i < n => PeriodOf(streams[i])),
         start + seconds * SECOND + 1_500_000_000)
  }

  function BytesOfFrames(streams: seq<Stream>, log: seq<Frame>): (b: nat)
    requires forall f :: f in log ==> f.stream < |streams|
  {
    if log == [] then 0 else BytesOfFrames(streams, log[..|log| - 1]) + streams[log[|log| - 1].stream].bytes
  }

  method FirstDeadlines(streams: seq<Stream>, start: nat, stagger: bool) returns (due: array<nat>)
    requires forall s :: s in streams ==> s.hz > 0
    ensures fresh(due) && due.Length == |streams|
    ensures forall i :: 0 <= i < |streams| ==> due[i] == FirstDue(streams, start, stagger, i)
  {
    var n := |streams|;
    due := new nat[n](_ => start);
    if stagger {
      for i := 0 to n
        invariant forall j :: 0 <= j < i ==> due[j] == FirstDue(streams, start, stagger, j)
        invariant forall j :: i <= j < n ==> due[j] == start
      {
        due[i] := due[i] + Stagger(streams[i], i, n);
      }
    }
  }

  lemma NothingServed(p: Plan, count: seq<nat>)
    requires ValidPlan(p) && |count| == |p.first| && forall i :: 0 <= i < |count| ==> count[i] == 0
    ensures Served(p, p.first, count, [])
  {
  }

  ghost predicate PlanFor(p: Plan, streams: seq<Stream>, end: nat)
  {
    && ValidPlan(p) && p.end == end && |p.first| == |streams|
    && forall i :: 0 <= i < |streams| ==> streams[i].hz > 0 && p.period[i] == PeriodOf(streams[i])
  }

  /** The two updates a send makes: ++seq[i], and the next deadline. */
  method Advance(due: array<nat>, count: array<nat>, i: nat, period: nat)
    requires due != count && i < due.Length == count.Length
    modifies due, count
    ensures due[..] == old(due[..])[i := old(due[i]) + period]
    ensures count[..] == old(count[..])[i := old(count[i]) + 1]
  {
    count[i] := count[i] + 1;
    due[i] := due[i] + period;
  }

  method ServeNext(streams: seq<Stream>, due: array<nat>, count: array<nat>, i: nat,
                   ghost log: seq<Frame>, ghost p: Plan) returns (f: Frame)
    requires PlanFor(p, streams, p.end) && due != count && Served(p, due[..], count[..], log)
    requires FirstMinimum(due[..], i) && due[i] < p.end
    modifies due, count
    ensures Served(p, due[..], count[..], log + [f]) && f.stream == i
    ensures TotalLeft(due[..], p.end) < TotalLeft(old(due[..]), p.end)
  {
    ServeOne(p, due[..], count[..], log, i);
    f := Frame(i, count[i] + 1, due[i]);
    Advance(due, count, i, PeriodOf(streams[i]));
  }

  ghost predicate BytesSent(streams: seq<Stream>, log: seq<Frame>, bytes: nat)
  {
    (forall f :: f in log ==> f.stream < |streams|) && bytes == BytesOfFrames(streams, log)
  }

  lemma OneMoreFrame(streams: seq<Stream>, log: seq<Frame>, f: Frame)
    requires f.stream < |streams|
    ensures forall b: nat :: BytesSent(streams, log, b) ==> BytesSent(streams, log + [f], b + streams[f.stream].bytes)
  {
    assert (log + [f])[..|log|] == log;
  }

  /** The loop. */
  method ServeAll(streams: seq<Stream>, end: nat, due: array<nat>, count: array<nat>, ghost p: Plan)
    returns (log: seq<Frame>, sent: nat, bytes: nat)
    requires PlanFor(p, streams, end) && due != count && Served(p, due[..], count[..], [])
    modifies due, count
    ensures Served(p, due[..], count[..], log) && forall i :: 0 <= i < due.Length ==> due[i] >= end
    ensures sent == |log| && BytesSent(streams, log, bytes)
  {
    log, sent, bytes := [], 0, 0;
    while true
      invariant Served(p, due[..], count[..], log)
      invariant sent == |log| && BytesSent(streams, log, bytes)
      decreases TotalLeft(due[..], end)
    {
      var i := EarliestDue(due);
      if due[i] >= end { break; }
      var f := ServeNext(streams, due, count, i, log, p);
      OneMoreFrame(streams, log, f);
      log := log + [f];
      sent := sent + 1;
      bytes := bytes + streams[i].bytes;
    }
  }

  /** `count` is the number of stream i's deadlines that lie before the end. */
  ghost predicate ExactCount(p: Plan, i: nat, count: nat)
    requires ValidPlan(p) && i < |p.first|
  {
    forall k: nat :: k < count <==> Deadline(p, i, k) < p.end
  }

  lemma AllServed(p: Plan, due: seq<nat>, count: seq<nat>, log: seq<Frame>)
    requires Served(p, due, count, log) && forall i :: 0 <= i < |due| ==> due[i] >= p.end
    ensures forall i :: 0 <= i < |due| ==> ExactCount(p, i, count[i])
    ensures forall f :: Planned(p, f) ==> f in log
  {
    forall i | 0 <= i < |due| ensures ExactCount(p, i, count[i]) {
      assert StreamAt(p, i, due[i], count[i]);
      forall k: nat ensures k < count[i] <==> Deadline(p, i, k) < p.end {
        if k < count[i] {
          DeadlinesGrow(p, i, k, count[i] - 1);
        } else {
          DeadlinesGrow(p, i, count[i], k);
        }
      }
    }
    forall f | Planned(p, f) ensures f in log {
      assert ExactCount(p, f.stream, count[f.stream]);
      assert InLog(p, f.stream, f.number - 1, log);
    }
  }

  /** run_producer: `log` lists the sends in order. It terminates, and what it has sent is the plan, in order. */
  method RunProducer(streams: seq<Stream>, start: nat, seconds: nat, stagger: bool)
    returns (log: seq<Frame>, counts: seq<nat>, sent: nat, bytes: nat)
    requires streams != [] && forall s :: s in streams ==> 0 < s.hz <= SECOND
    ensures var p := PlanOf(streams, start, seconds, stagger);
            && (forall f :: f in log <==> Planned(p, f))
            && Ordered(log)
            && |counts| == |streams|
            && forall i :: 0 <= i < |streams| ==> ExactCount(p, i, counts[i])
    ensures sent == |log| && BytesSent(streams, log, bytes)
  {
    ghost var p := PlanOf(streams, start, seconds, stagger);
    var end := start + seconds * SECOND + 1_500_000_000;
    var due := FirstDeadlines(streams, start, stagger);
    var count := new nat[|streams|](_ => 0);
    assert due[..] == p.first;
    NothingServed(p, count[..]);
    log, sent, bytes := ServeAll(streams, end, due, count, p);
    counts := count[..];
    AllServed(p, due[..], counts, log);
  }

  // ------------------------------------------------------------------ what the order says

  lemma SomeMember(b: seq<Frame>)
    ensures b != [] ==> exists f :: f in b
  {
    if b != [] {
      assert b[0] in b;
    }
  }

  lemma Tail(a: seq<Frame>, f: Frame)
    requires Ordered(a) && a != []
    ensures f in a[1..] <==> f in a && f != a[0]
  {
    if f in a && f != a[0] {
      var i :| 0 <= i < |a| && a[i] == f;
      assert a[1..][i - 1] == f;
    }
    if f in a[1..] {
      var i :| 0 <= i < |a| - 1 && a[1..][i] == f;
      assert Before(a[0], a[i + 1]);
    }
  }

  /** One order only: two ordered logs of the same frames are the same log, so the plan decides every send. */
  lemma {:induction false} OrderIsDecided(a: seq<Frame>, b: seq<Frame>)
    requires Ordered(a) && Ordered(b) && forall f :: f in a <==> f in b
    ensures a == b
  {
    if a == [] {
      SomeMember(b);
    } else {
      assert a[0] in b && b[0] in a;
      assert a[0] == b[0] by {
        var i :| 0 <= i < |b| && b[i] == a[0];
        var j :| 0 <= j < |a| && a[j] == b[0];
      }
      forall f ensures f in a[1..] <==> f in b[1..] {
        Tail(a, f);
        Tail(b, f);
      }
      OrderIsDecided(a[1..], b[1..]);
    }
  }

  /** Deadlines never go back, and each stream's frames go out as 1, 2, 3, .. */
  lemma InNumberOrder(p: Plan, log: seq<Frame>, q: nat, r: nat)
    requires ValidPlan(p) && Ordered(log) && (forall f :: f in log ==> Planned(p, f)) && q < r < |log|
    ensures log[q].deadline <= log[r].deadline
    ensures log[q].stream == log[r].stream ==> log[q].number < log[r].number
  {
    var a, b := log[q], log[r];
    assert a in log && b in log;
    if a.stream == b.stream && b.number <= a.number {
      DeadlinesGrow(p, a.stream, b.number - 1, a.number - 1);
    }
  }
}
