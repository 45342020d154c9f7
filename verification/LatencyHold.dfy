/** CpuLatencyHold: a CPU's wake-up limit, put back by exactly the hold that replaced it.  The kernel's side is a
    table of attributes and the open requests on /dev/cpu_dma_latency. A write in acquire() may be refused; that the
    kernel takes back a value it gave out is assumed. The process is named by its pid. */
module LatencyHold {
  import opened Machine

  function Decimal(n: nat): (s: string)
    ensures s != "" && (n > 0 ==> s[0] != '0') && forall i :: 0 <= i < |s| ==> '0' <= s[i] <= '9'
  {
    var digit := ['0' + (n % 10) as char];
    if n < 10 then digit else Decimal(n / 10) + digit
  }

  /** How the attribute spells a limit: 0 is "n/a", because "0" would mean none. */
  function Limit(us: nat): (s: string)
    ensures s != ""
  {
    if us == 0 then "n/a" else Decimal(us)
  }

  lemma LimitIsNeverNoLimit(us: nat)
    ensures Limit(us) != "0"
  {
  }

  class Sysfs {
    var online: map<int, string>
    var attr: map<int, string>
    var requests: set<nat>      // open descriptors of /dev/cpu_dma_latency
    var granted: nat                   // holds handed out so far
    ghost var restored: multiset<nat>  // for every attribute write of a release, the serial number of its hold

    constructor (a: map<int, string>, o: map<int, string>)
      ensures attr == a && online == o && requests == {} && granted == 0 && restored == multiset{}
    {
      attr, online, requests, granted, restored := a, o, {}, 0, multiset{};
    }
  }

  /** What a move transfers. `serial` tells acquisitions apart; nothing depends on it. */
  datatype Held = Held(fd: int, cpu: int, us: int, owner: int, path: int, restore: string, serial: nat)

  predicate Empty(h: Held) { h.fd < 0 && h.restore == "" }

  class CpuLatencyHold {
    var fd: int
    var cpu: int
    var us: int
    var owner: int
    var path: int          // the CPU whose attribute it is
    var restore: string
    var serial: nat

    function Value(): Held
      reads this
    {
      Held(fd, cpu, us, owner, path, restore, serial)
    }

    constructor (h: Held)
      ensures Value() == h
    {
      fd, cpu, us, owner, path, restore, serial := h.fd, h.cpu, h.us, h.owner, h.path, h.restore, h.serial;
    }

    /** The move constructor: the hold changes hands and the source is left empty. */
    constructor Moved(o: CpuLatencyHold)
      modifies o
      ensures Value() == old(o.Value()) && Empty(o.Value())
    {
      fd, cpu, us, owner, path, restore, serial := o.fd, o.cpu, o.us, o.owner, o.path, o.restore, o.serial;
      new;
      o.fd, o.restore := -1, "";
    }

    /** release, in the process `pid`. */
    method Release(sys: Sysfs, pid: int)
      requires fd >= 0 ==> restore == ""
      modifies this`fd, this`restore, sys`attr, sys`requests, sys`restored
      ensures Empty(Value())
      ensures old(fd) >= 0 ==> restore == old(restore) && sys.attr == old(sys.attr) && sys.restored == old(sys.restored)
      ensures old(fd) >= 0 && pid == owner ==> sys.requests == old(sys.requests) - {old(fd)}
      ensures old(fd) < 0 || pid != owner ==> sys.requests == old(sys.requests)
      ensures old(fd) < 0 && old(restore) != "" && pid == owner ==>
        sys.attr == old(sys.attr)[path := old(restore)] && sys.restored == old(sys.restored) + multiset{serial}
      ensures old(Empty(Value())) || pid != owner ==> sys.attr == old(sys.attr) && sys.restored == old(sys.restored)
    {
      var isOwner := pid == owner;
      if fd >= 0 {
        if isOwner { sys.requests := sys.requests - {fd}; }
        fd := -1;
      } else if restore != "" {
        if isOwner {
          sys.attr := sys.attr[path := restore];
          sys.restored := sys.restored + multiset{serial};
        }
        restore := "";
      }
    }

    /** Move assignment: whatever this held is released first. */
    method Assign(o: CpuLatencyHold, sys: Sysfs, pid: int)
      requires fd >= 0 ==> restore == ""
      modifies this, o, sys`attr, sys`requests, sys`restored
      ensures o == this ==> Value() == old(Value())
      ensures o != this ==> Value() == old(o.Value()) && Empty(o.Value())
      ensures o == this || old(Empty(Value())) ==>
        sys.attr == old(sys.attr) && sys.requests == old(sys.requests) && sys.restored == old(sys.restored)
      ensures o != this && old(fd) < 0 && old(restore) != "" && pid == old(owner) ==>
        && sys.attr == old(sys.attr)[old(path) := old(restore)] && sys.requests == old(sys.requests)
        && sys.restored == old(sys.restored) + multiset{old(serial)}
    {
      if this != o {
        Release(sys, pid);
        fd, cpu, us, owner, path, restore, serial := o.fd, o.cpu, o.us, o.owner, o.path, o.restore, o.serial;
        o.fd, o.restore := -1, "";
      }
    }
  }

  datatype Errno = EINVAL | ENODEV | ENOENT | EIO | EACCES | Other(code: int)

  /** What the kernel says to acquire's calls: to opening and reading, and to writing. */
  datatype Kernel = Kernel(opening: Option<Errno>, writing: Option<Errno>)

  datatype Acquired = Acquired(hold: Held) | Failed(error: Errno)

  predicate Offline(sys: Sysfs, cpu: int)
    reads sys`online
  {
    cpu in sys.online && sys.online[cpu] == "0"
  }

  lemma Above(s: set<nat>) returns (b: nat)
    ensures forall x :: x in s ==> x < b
  {
    b := 0;
    var left := s;
    while left != {}
      invariant forall x :: x in s ==> x in left || x < b
    {
      var x :| x in left;
      b := if x < b then b else x + 1;
      left := left - {x};
    }
  }

  lemma FreeDescriptor(s: set<nat>)
    ensures exists fd: nat :: fd !in s
  {
    var bound := Above(s);
    assert bound !in s;
  }

  /** acquire can get as far as opening what it writes to: /dev/cpu_dma_latency, or the attribute of a CPU that is
      there. */
  predicate Reachable(sys: Sysfs, maxLatencyUs: int, cpu: int)
    reads sys`online, sys`attr
  {
    maxLatencyUs >= 0 && (cpu == -1 || (cpu >= 0 && !Offline(sys, cpu) && cpu in sys.attr))
  }

  /** acquire: the previous value is read before the new limit is written, so the hold knows what to put back. */
  method Acquire(maxLatencyUs: int, cpu: int, sys: Sysfs, pid: int, kernel: Kernel) returns (r: Acquired)
    modifies sys`attr, sys`requests, sys`granted
    ensures r.Failed? ==>
      sys.attr == old(sys.attr) && sys.requests == old(sys.requests) && sys.granted == old(sys.granted)
    ensures r.Acquired? ==> sys.granted == old(sys.granted) + 1
    // Which error, in this order.
    ensures maxLatencyUs < 0 || cpu < -1 ==> r == Failed(EINVAL)
    ensures maxLatencyUs >= 0 && cpu >= 0 && Offline(sys, cpu) ==> r == Failed(ENODEV)
    ensures maxLatencyUs >= 0 && cpu >= 0 && !Offline(sys, cpu) && cpu !in old(sys.attr) ==> r == Failed(ENOENT)
    ensures old(Reachable(sys, maxLatencyUs, cpu)) && kernel.opening.Some? ==> r == Failed(kernel.opening.value)
    ensures old(Reachable(sys, maxLatencyUs, cpu)) && kernel.opening.None? ==>
      if cpu >= 0 && old(sys.attr)[cpu] == "" then r == Failed(EIO)
      else if kernel.writing.Some? then r == Failed(kernel.writing.value) else r.Acquired?
    ensures r.Acquired? && cpu == -1 ==>
      && r.hold == Held(r.hold.fd, -1, maxLatencyUs, pid, 0, "", old(sys.granted)) && r.hold.fd >= 0
      && sys.attr == old(sys.attr) && r.hold.fd !in old(sys.requests)
      && sys.requests == old(sys.requests) + {r.hold.fd}
    ensures r.Acquired? && cpu >= 0 ==>
      && sys.requests == old(sys.requests)
      && cpu in old(sys.attr)
      && r.hold == Held(-1, cpu, maxLatencyUs, pid, cpu, old(sys.attr)[cpu], old(sys.granted))
      && sys.attr == old(sys.attr)[cpu := Limit(maxLatencyUs)]
  {
    if maxLatencyUs < 0 || cpu < -1 { return Failed(EINVAL); }
    if cpu == -1 {
      if kernel.opening.Some? { return Failed(kernel.opening.value); }
      if kernel.writing.Some? { return Failed(kernel.writing.value); }  // and the descriptor is closed again
      var fd: nat :| fd !in sys.requests by { FreeDescriptor(sys.requests); }
      sys.requests := sys.requests + {fd};
      sys.granted := sys.granted + 1;
      return Acquired(Held(fd, -1, maxLatencyUs, pid, 0, "", sys.granted - 1));
    }
    if Offline(sys, cpu) { return Failed(ENODEV); }
    if cpu !in sys.attr { return Failed(ENOENT); }
    if kernel.opening.Some? { return Failed(kernel.opening.value); }
    var prev := sys.attr[cpu];
    if prev == "" { return Failed(EIO); }
    if kernel.writing.Some? { return Failed(kernel.writing.value); }
    sys.attr := sys.attr[cpu := Limit(maxLatencyUs)];
    sys.granted := sys.granted + 1;
    return Acquired(Held(-1, cpu, maxLatencyUs, pid, cpu, prev, sys.granted - 1));
  }

  // ------------------------------------------------------------------ nests

  /** What the attribute should say: the innermost live limit, or the original value when there is none. */
  function Innermost(values: seq<Held>, original: string): (s: string)
    ensures original != "" ==> s != ""
  {
    if values == [] then original
    else
      var us := values[|values| - 1].us;
      Limit(if us >= 0 then us else 0)
  }

  ghost predicate HeldAt(values: seq<Held>, i: nat, cpu: int, original: string, pid: int)
    requires i < |values|
  {
    var h := values[i];
    && h.fd == -1 && h.us >= 0 && h.owner == pid && h.path == cpu && h.restore == Innermost(values[..i], original)
  }

  /** The live holds on one CPU, innermost last: each knows the limit below it. */
  ghost predicate Nest(values: seq<Held>, attr: map<int, string>, cpu: int, original: string, pid: int)
  {
    && original != "" && cpu in attr
    && attr[cpu] == Innermost(values, original)
    && forall i :: 0 <= i < |values| ==> HeldAt(values, i, cpu, original, pid)
  }

  function Without<T>(s: seq<T>, j: nat): (r: seq<T>)
    requires j < |s|
    ensures |r| == |s| - 1
    ensures forall k :: 0 <= k < |r| ==> r[k] == if k < j then s[k] else s[k + 1]
  {
    s[..j] + s[j + 1..]
  }

  lemma Pushed(values: seq<Held>, attr: map<int, string>, cpu: int, original: string, pid: int, us: nat, serial: nat)
    requires Nest(values, attr, cpu, original, pid)
    ensures Nest(values + [Held(-1, cpu, us, pid, cpu, attr[cpu], serial)], attr[cpu := Limit(us)], cpu, original, pid)
  {
    var more := values + [Held(-1, cpu, us, pid, cpu, attr[cpu], serial)];
    forall i | 0 <= i < |more| ensures HeldAt(more, i, cpu, original, pid) {
      assert more[..i] == if i < |values| then values[..i] else values;
      assert i < |values| ==> HeldAt(values, i, cpu, original, pid);
    }
  }

  lemma Popped(values: seq<Held>, attr: map<int, string>, cpu: int, original: string, pid: int)
    requires Nest(values, attr, cpu, original, pid) && values != []
    ensures var n := |values| - 1;
            values[n].restore != ""
            && Nest(Without(values, n), attr[cpu := values[n].restore], cpu, original, pid)
  {
    var n := |values| - 1;
    var rest := Without(values, n);
    assert HeldAt(values, n, cpu, original, pid) && rest == values[..n];
    forall i | 0 <= i < n ensures HeldAt(rest, i, cpu, original, pid) {
      assert HeldAt(values, i, cpu, original, pid) && rest[..i] == values[..i];
    }
  }

  /** When hold j may be assigned over: it is innermost, or its limit, the limit it replaced and the innermost limit are
      all spelled the same. */
  predicate MayBeAssignedOver(values: seq<Held>, j: nat)
    requires j < |values|
  {
    var last := values[|values| - 1];
    || j == |values| - 1
    || (values[j].us >= 0 && last.us >= 0 && values[j].restore == Limit(values[j].us) == Limit(last.us))
  }

  lemma WithoutHolds(values: seq<Held>, cpu: int, original: string, pid: int, j: nat, k: nat)
    requires j + 1 < |values| && k + 1 < |values|
    requires forall i :: 0 <= i < |values| ==> HeldAt(values, i, cpu, original, pid)
    requires values[j].us >= 0 && values[j].restore == Limit(values[j].us)
    ensures HeldAt(Without(values, j), k, cpu, original, pid)
  {
    var rest := Without(values, j);
    if k < j {
      assert HeldAt(values, k, cpu, original, pid) && rest[..k] == values[..k];
    } else {
      assert HeldAt(values, k + 1, cpu, original, pid) && HeldAt(values, j, cpu, original, pid);
      if k == j {
        assert rest[..k] == values[..j] && values[..j + 1][j] == values[j];
      } else {
        assert rest[..k][k - 1] == values[k] == values[..k + 1][k];
      }
    }
  }

  lemma AssignKeepsNest(values: seq<Held>, attr: map<int, string>, cpu: int, original: string, pid: int, j: nat)
    requires Nest(values, attr, cpu, original, pid) && j + 1 < |values| && MayBeAssignedOver(values, j)
    ensures Nest(Without(values, j), attr[cpu := values[j].restore], cpu, original, pid)
  {
    var rest := Without(values, j);
    assert rest[|rest| - 1] == values[|values| - 1];
    assert HeldAt(values, j, cpu, original, pid);
    forall k | 0 <= k < |rest| ensures HeldAt(rest, k, cpu, original, pid) {
      WithoutHolds(values, cpu, original, pid, j, k);
    }
  }

  lemma OnlyThenANest(values: seq<Held>, attr: map<int, string>, cpu: int, original: string, pid: int, j: nat)
    requires Nest(values, attr, cpu, original, pid) && j + 1 < |values|
    requires Nest(Without(values, j), attr[cpu := values[j].restore], cpu, original, pid)
    ensures MayBeAssignedOver(values, j)
  {
    var n, rest := |values| - 1, Without(values, j);
    assert HeldAt(values, j, cpu, original, pid) && HeldAt(values, n, cpu, original, pid);
    assert HeldAt(values, j + 1, cpu, original, pid) && values[..j + 1][j] == values[j];
    assert HeldAt(rest, j, cpu, original, pid) && rest[..j] == values[..j] && rest[j] == values[j + 1];
    assert rest[|rest| - 1] == values[n];
  }

  /** Assigning over a live hold j writes what j replaced, and j is gone: the rest is a nest again exactly then. */
  lemma AssignKeepsNestIff(values: seq<Held>, attr: map<int, string>, cpu: int, original: string, pid: int, j: nat)
    requires Nest(values, attr, cpu, original, pid) && j < |values|
    ensures Nest(Without(values, j), attr[cpu := values[j].restore], cpu, original, pid)
            <==> MayBeAssignedOver(values, j)
  {
    if j == |values| - 1 {
      Popped(values, attr, cpu, original, pid);
    } else {
      if MayBeAssignedOver(values, j) {
        AssignKeepsNest(values, attr, cpu, original, pid, j);
      }
      if Nest(Without(values, j), attr[cpu := values[j].restore], cpu, original, pid) {
        OnlyThenANest(values, attr, cpu, original, pid, j);
      }
    }
  }

  function Serials(values: seq<Held>): (ks: seq<nat>)
    ensures |ks| == |values| && forall i :: 0 <= i < |ks| ==> ks[i] == values[i].serial
  {
    seq(|values|, i requires 0 <= i < |values| => values[i].serial)
  }

  function Live(values: seq<Held>): multiset<nat> { multiset(Serials(values)) }

  /** Of the holds granted so far, each is live or has restored, once. */
  ghost predicate OnceEach(restored: multiset<nat>, values: seq<Held>, granted: nat)
  {
    forall k: nat :: restored[k] + Live(values)[k] == if k < granted then 1 else 0
  }

  lemma OneMoreLive(restored: multiset<nat>, values: seq<Held>, granted: nat, h: Held)
    requires OnceEach(restored, values, granted) && h.serial == granted
    ensures OnceEach(restored, values + [h], granted + 1)
  {
    assert Serials(values + [h]) == Serials(values) + [granted];
    assert Live(values + [h]) == Live(values) + multiset{granted};
    forall k: nat ensures restored[k] + Live(values + [h])[k] == if k < granted + 1 then 1 else 0 {
      assert restored[k] + Live(values)[k] == if k < granted then 1 else 0;
    }
  }

  lemma OneMoreRestored(restored: multiset<nat>, values: seq<Held>, granted: nat, j: nat)
    requires OnceEach(restored, values, granted) && j < |values|
    ensures OnceEach(restored + multiset{values[j].serial}, Without(values, j), granted)
  {
    var was, rest := Serials(values), Without(values, j);
    assert was == was[..j] + [was[j]] + was[j + 1..] && Serials(rest) == was[..j] + was[j + 1..];
    assert Live(values) == Live(rest) + multiset{was[j]};
    forall k: nat ensures (restored + multiset{was[j]})[k] + Live(rest)[k] == if k < granted then 1 else 0 {
      assert restored[k] + Live(values)[k] == if k < granted then 1 else 0;
    }
  }

  /** What a program may do with the holds it has on one CPU, short of breaking the nesting. */
  datatype Op =
    | Push(us: int, kernel: Kernel)
    | Pop                              // the innermost hold is destroyed
    | MoveConstruct(i: nat)            // into a new object; the old one is then destroyed
    | MoveToEmpty(i: nat)              // by assignment, into an object that holds nothing
    | MoveAssign(i: nat, j: nat)       // hold i into the object that carries hold j
    | ForkAndRelease(i: nat)           // a child process destroys its copy

  function ValuesOf(holds: seq<CpuLatencyHold>): (vs: seq<Held>)
    reads holds
    ensures |vs| == |holds| && forall i :: 0 <= i < |vs| ==> vs[i] == holds[i].Value()
  {
    seq(|holds|, i requires 0 <= i < |holds| reads holds => holds[i].Value())
  }

  ghost predicate Distinct(holds: seq<CpuLatencyHold>) { forall i, j :: 0 <= i < j < |holds| ==> holds[i] != holds[j] }

  /** Putting the object of hold j in the place of hold i, and taking it out of its own. */
  lemma Rearranged(holds: seq<CpuLatencyHold>, i: nat, j: nat)
    requires i < |holds| && j < |holds| && i != j && Distinct(holds)
    ensures var rest := Without(holds[i := holds[j]], j);
            && Distinct(rest)
            && forall k :: 0 <= k < |rest| ==>
                 var m := if k < j then k else k + 1;
                 if m == i then rest[k] == holds[j]
                 else rest[k] == holds[m] && rest[k] != holds[i] && rest[k] != holds[j]
  {
  }

  lemma OneAttribute(attr: map<int, string>, cpu: int, value: string)
    ensures attr[cpu := value] - {cpu} == attr - {cpu}
  {
  }

  class Program {
    const sys: Sysfs
    const cpu: nat
    const pid: int
    ghost const elsewhere: map<int, string>   // the other CPUs' attributes
    var holds: seq<CpuLatencyHold>

    ghost predicate Settled(values: seq<Held>)
      reads sys`attr, sys`restored, sys`granted
    {
      OnceEach(sys.restored, values, sys.granted) && sys.attr - {cpu} == elsewhere
    }

    /** The live holds nest, each hold that is gone has restored once, and nothing changed elsewhere. */
    ghost predicate Valid(original: string)
      reads this, holds, sys
    {
      Nest(ValuesOf(holds), sys.attr, cpu, original, pid) && Settled(ValuesOf(holds)) && Distinct(holds)
    }

    constructor (s: Sysfs, c: nat, p: int)
      requires c in s.attr && s.attr[c] != "" && s.restored == multiset{} && s.granted == 0
      ensures Valid(s.attr[c]) && sys == s && cpu == c && pid == p && holds == [] && elsewhere == s.attr - {c}
    {
      elsewhere := s.attr - {c};
      sys, cpu, pid, holds := s, c, p, [];
    }

    twostate predicate SameOrNew()
      reads this`holds
    {
      forall i :: 0 <= i < |holds| ==> holds[i] in old(holds) || fresh(holds[i])
    }

    method Add(v: Held)
      requires Distinct(holds)
      modifies this`holds
      ensures Distinct(holds) && SameOrNew() && ValuesOf(holds) == old(ValuesOf(holds)) + [v]
      ensures |holds| == |old(holds)| + 1 && old(holds) <= holds && holds[|old(holds)|].us == v.us
    {
      var h := new CpuLatencyHold(v);
      holds := holds + [h];
    }

    /** The hold just acquired becomes the innermost. */
    method Take(v: Held, ghost attr: map<int, string>, ghost original: string)
      requires Nest(ValuesOf(holds), attr, cpu, original, pid) && Distinct(holds) && sys.granted > 0
      requires OnceEach(sys.restored, ValuesOf(holds), sys.granted - 1) && attr - {cpu} == elsewhere
      requires v.us >= 0 && v == Held(-1, cpu, v.us, pid, cpu, attr[cpu], sys.granted - 1)
      requires sys.attr == attr[cpu := Limit(v.us)]
      modifies this`holds
      ensures Valid(original) && SameOrNew()
      ensures |holds| == |old(holds)| + 1 && old(holds) <= holds && holds[|old(holds)|].us == v.us
    {
      Pushed(ValuesOf(holds), attr, cpu, original, pid, v.us, v.serial);
      OneMoreLive(sys.restored, ValuesOf(holds), v.serial, v);
      Add(v);
    }

    method PushOne(us: int, kernel: Kernel, ghost original: string) returns (ok: bool)
      requires Valid(original)
      modifies this`holds, sys`attr, sys`requests, sys`granted
      ensures Valid(original) && SameOrNew()
      ensures ok <==> us >= 0 && kernel == Kernel(None, None) && !Offline(sys, cpu)
      ensures ok ==> |holds| == |old(holds)| + 1 && old(holds) <= holds && holds[|old(holds)|].us == us
      ensures !ok ==> holds == old(holds) && sys.attr == old(sys.attr)
    {
      ghost var attr := sys.attr;
      var r := Acquire(us, cpu, sys, pid, kernel);
      ok := r.Acquired?;
      if ok { Take(r.hold, attr, original); }
    }

    /** The last object is destroyed, and what it holds released. */
    method Drop(n: nat)
      requires n + 1 == |holds| && Distinct(holds)
      requires holds[n].fd < 0 && holds[n].restore != "" && holds[n].owner == pid
      modifies this`holds, holds, sys`attr, sys`requests, sys`restored
      ensures holds == old(holds)[..n] && Distinct(holds) && ValuesOf(holds) == Without(old(ValuesOf(holds)), n)
      ensures sys.attr == old(sys.attr)[old(holds[n].path) := old(holds[n].restore)]
      ensures sys.restored == old(sys.restored) + multiset{old(holds[n].serial)}
    {
      holds[n].Release(sys, pid);
      holds := holds[..n];
    }

    /** The innermost hold is destroyed. */
    method PopOne(ghost original: string)
      requires Valid(original) && holds != []
      modifies this`holds, holds, sys`attr, sys`requests, sys`restored
      ensures Valid(original) && holds == old(holds)[..|old(holds)| - 1]
    {
      ghost var values := ValuesOf(holds);
      var n := |holds| - 1;
      assert HeldAt(values, n, cpu, original, pid);
      Popped(values, sys.attr, cpu, original, pid);
      OneMoreRestored(sys.restored, values, sys.granted, n);
      Drop(n);
    }

    /** Replace the object that carries hold i by one that took it over. */
    method Relocate(i: nat, byAssignment: bool)
      requires i < |holds| && Distinct(holds) && (holds[i].fd >= 0 ==> holds[i].restore == "")
      modifies this`holds, holds, sys`attr, sys`requests, sys`restored
      ensures Distinct(holds) && SameOrNew() && ValuesOf(holds) == old(ValuesOf(holds))
      ensures sys.attr == old(sys.attr) && sys.restored == old(sys.restored)
      ensures |holds| == |old(holds)| && fresh(holds[i])
    {
      var source := holds[i];
      var h: CpuLatencyHold;
      if byAssignment {
        h := new CpuLatencyHold(Held(-1, -1, 0, pid, 0, "", 0));
        h.Assign(source, sys, pid);
      } else {
        h := new CpuLatencyHold.Moved(source);
      }
      source.Release(sys, pid);
      holds := holds[i := h];
    }

    /** Assign `source` over the live hold in `target`, then destroy it. */
    method Transfer(source: CpuLatencyHold, target: CpuLatencyHold)
      requires source != target && target.fd < 0 && target.restore != "" && target.owner == pid
      modifies source, target, sys`attr, sys`requests, sys`restored
      ensures target.Value() == old(source.Value())
      ensures sys.attr == old(sys.attr)[old(target.path) := old(target.restore)]
      ensures sys.restored == old(sys.restored) + multiset{old(target.serial)}
    {
      target.Assign(source, sys, pid);
      source.Release(sys, pid);
    }

    /** The object that carries hold j releases it, and then carries hold i. */
    method Overwrite(i: nat, j: nat)
      requires i < |holds| && j < |holds| && i != j && Distinct(holds)
      requires holds[j].fd < 0 && holds[j].restore != "" && holds[j].owner == pid
      modifies this`holds, holds, sys`attr, sys`requests, sys`restored
      ensures Distinct(holds) && SameOrNew() && ValuesOf(holds) == Without(old(ValuesOf(holds)), j)
      ensures sys.attr == old(sys.attr)[old(holds[j].path) := old(holds[j].restore)]
      ensures sys.restored == old(sys.restored) + multiset{old(holds[j].serial)}
    {
      Rearranged(holds, i, j);
      var rest := Without(holds[i := holds[j]], j);
      Transfer(holds[i], holds[j]);
      holds := rest;
    }

    /** Assign hold i over live hold j. The nest survives exactly if j may be assigned over; either way j has restored,
        once. */
    method AssignOver(i: nat, j: nat, ghost original: string)
      requires Valid(original) && i < |holds| && j < |holds| && i != j
      modifies this`holds, holds, sys`attr, sys`requests, sys`restored
      ensures Settled(ValuesOf(holds)) && Distinct(holds) && SameOrNew()
      ensures ValuesOf(holds) == Without(old(ValuesOf(holds)), j)
      ensures sys.attr == old(sys.attr)[cpu := old(holds[j].restore)]
      ensures Valid(original) <==> MayBeAssignedOver(old(ValuesOf(holds)), j)
    {
      ghost var values := ValuesOf(holds);
      assert HeldAt(values, j, cpu, original, pid);
      AssignKeepsNestIff(values, sys.attr, cpu, original, pid, j);
      OneMoreRestored(sys.restored, values, sys.granted, j);
      OneAttribute(sys.attr, cpu, values[j].restore);
      Overwrite(i, j);
    }

    /** A child that unwinds destroys its copy of a hold. */
    method Forked(i: nat, child: int, ghost original: string)
      requires Valid(original) && i < |holds| && child != pid
      modifies sys`attr, sys`requests, sys`restored
      ensures Valid(original) && sys.attr == old(sys.attr) && sys.restored == old(sys.restored)
    {
      assert HeldAt(ValuesOf(holds), i, cpu, original, pid);
      var copy := new CpuLatencyHold(holds[i].Value());
      copy.Release(sys, child);
    }

    /** Hold i moves: into a new object, into an object that holds nothing, or over hold j if that may be. */
    method Move(op: Op, ghost original: string)
      requires Valid(original) && (op.MoveConstruct? || op.MoveToEmpty? || op.MoveAssign?)
      modifies this`holds, holds, sys
      ensures Valid(original) && SameOrNew()
    {
      if op.i < |holds| {
        assert HeldAt(ValuesOf(holds), op.i, cpu, original, pid);
        if !op.MoveAssign? {
          Relocate(op.i, op.MoveToEmpty?);
        } else if op.j < |holds| {
          if op.i == op.j {
            ghost var values := ValuesOf(holds);
            holds[op.i].Assign(holds[op.j], sys, pid);
            assert ValuesOf(holds) == values;
          } else if MayBeAssignedOver(ValuesOf(holds), op.j) {
            AssignOver(op.i, op.j, original);
          }
        }
      }
    }

    method Do(op: Op, ghost original: string)
      requires Valid(original)
      modifies this`holds, holds, sys
      ensures Valid(original) && SameOrNew()
    {
      match op {
        case Push(us, kernel) => var ok := PushOne(us, kernel, original);
        case Pop => if holds != [] { PopOne(original); }
        case ForkAndRelease(i) => if i < |holds| { Forked(i, pid + 1, original); }
        case _ => Move(op, original);
      }
    }

    /** Any program of these operations: at every point the attribute is the innermost live limit, and destroying the
        holds that are left, innermost first, ends at the original value, each single hold having restored once. */
    method Run(ops: seq<Op>, ghost original: string)
      requires Valid(original)
      modifies this`holds, holds, sys
      ensures Valid(original) && holds == []
      ensures sys.attr[cpu] == original && sys.attr - {cpu} == old(sys.attr) - {cpu}
      ensures forall k: nat :: sys.restored[k] == if k < sys.granted then 1 else 0
    {
      for k := 0 to |ops|
        invariant Valid(original) && SameOrNew()
        invariant sys.attr[cpu] == Innermost(ValuesOf(holds), original)
      {
        Do(ops[k], original);
      }
      while holds != []
        invariant Valid(original) && SameOrNew()
      {
        PopOne(original);
      }
      assert Live(ValuesOf(holds)) == multiset{};
    }
  }

  // ------------------------------------------------------------------ rt_setup_memory_and_sched

  /** The hold kept for the process by rt_setup_memory_and_sched. */
  class SetupHold {
    const sys: Sysfs
    const pid: int
    var hold: CpuLatencyHold?

    /** Apart from the limit of the hold that is kept, the machine is as it was. */
    ghost predicate Valid(attr: map<int, string>, requests: set<nat>)
      reads this, hold, sys
    {
      if hold == null || Empty(hold.Value()) then sys.attr == attr && sys.requests == requests
      else
        && hold.owner == pid
        && if hold.fd >= 0
           then hold.restore == "" && hold.fd !in requests && sys.attr == attr
                && sys.requests == requests + {hold.fd as nat}
           else hold.us >= 0 && hold.path in attr && hold.restore == attr[hold.path]
                && sys.requests == requests && sys.attr == attr[hold.path := Limit(hold.us)]
    }

    constructor (s: Sysfs, p: int)
      ensures Valid(s.attr, s.requests) && sys == s && pid == p && hold == null
    {
      sys, pid, hold := s, p, null;
    }

    /** reset, and what happens to the hold when the process exits. */
    method Reset(ghost attr: map<int, string>, ghost requests: set<nat>)
      requires Valid(attr, requests)
      modifies this`hold, hold, sys
      ensures hold == null && Valid(attr, requests) && sys.attr == attr && sys.requests == requests
    {
      if hold != null {
        ghost var h := hold.Value();
        hold.Release(sys, pid);
        if h.fd < 0 && h.restore != "" {
          assert attr[h.path := Limit(h.us)][h.path := attr[h.path]] == attr;
        }
        hold := null;
      }
    }

    /** The latency part of rt_setup_memory_and_sched: the old hold restores before the new one reads. */
    method Setup(latencyUs: int, setAffinity: bool, cpuId: int, kernel: Kernel,
                 ghost attr: map<int, string>, ghost requests: set<nat>) returns (rc: int)
      requires Valid(attr, requests)
      modifies this`hold, hold, sys
      ensures Valid(attr, requests) && (hold == null || hold == old(hold) || fresh(hold))
      ensures latencyUs >= 0 && rc == 0 ==>
        hold != null && hold.us == latencyUs && hold.cpu == if setAffinity then cpuId else -1
      ensures latencyUs >= 0 && rc != 0 ==> rc == -1 && hold == null
    {
      if latencyUs >= 0 {
        Reset(attr, requests);
        var r := Acquire(latencyUs, if setAffinity then cpuId else -1, sys, pid, kernel);
        if r.Failed? { return -1; }
        var taken := new CpuLatencyHold(r.hold);
        hold := new CpuLatencyHold.Moved(taken);
        taken.Release(sys, pid);
      }
      return 0;
    }

    /** Any sequence of setup calls, on any CPUs, ends at the original values when the process exits. */
    method RunSetups(calls: seq<(int, bool, int, Kernel)>)
      requires hold == null
      modifies this, sys
      ensures sys.attr == old(sys.attr) && sys.requests == old(sys.requests)
    {
      ghost var attr, requests := sys.attr, sys.requests;
      for k := 0 to |calls|
        invariant Valid(attr, requests) && (hold == null || fresh(hold))
      {
        var rc := Setup(calls[k].0, calls[k].1, calls[k].2, calls[k].3, attr, requests);
      }
      Reset(attr, requests);
    }
  }

  /** Why setup resets first: assigning a new hold over a live one on the same CPU. The new limit is in force
      afterwards exactly if it is spelled like the value the old hold found, and the hold will restore that value in
      the end exactly if the old limit was spelled like it. */
  method AssignOverLive(x: CpuLatencyHold, us: int, sys: Sysfs, pid: int, kernel: Kernel, ghost original: string)
    returns (ok: bool)
    requires x.fd < 0 && x.owner == pid && x.us >= 0 && x.cpu == x.path >= 0
    requires x.restore == original != "" && x.path in sys.attr && sys.attr[x.path] == Limit(x.us)
    modifies x, sys
    ensures !ok ==> sys.attr == old(sys.attr) && x.Value() == old(x.Value())
    ensures ok ==> x.us == us >= 0 && x.cpu == old(x.cpu) && x.path in sys.attr
    ensures ok ==> sys.attr[x.path] == original && x.restore == Limit(old(x.us))
    ensures ok ==> (sys.attr[x.path] == Limit(us) <==> original == Limit(us))
    ensures ok ==> (x.restore == original <==> original == Limit(old(x.us)))
  {
    var r := Acquire(us, x.cpu, sys, pid, kernel);
    ok := r.Acquired?;
    if ok {
      var next := new CpuLatencyHold(r.hold);
      x.Assign(next, sys, pid);
      next.Release(sys, pid);
    }
  }
}
