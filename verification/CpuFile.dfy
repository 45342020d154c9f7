/** A CPU list that comes through read_line, which delivers at most 63 bytes: exactly the lists that fit read back. */
module CpuFile {
  import opened Machine
  import opened LatencyHold
  import opened CpuList

  lemma {:induction false} LastOfJoin(items: seq<string>)
    requires items != [] && items[|items| - 1] != ""
    ensures var s, t := Join(items), items[|items| - 1]; s != "" && s[|s| - 1] == t[|t| - 1]
  {
    if |items| > 1 {
      LastOfJoin(items[1..]);
    }
  }

  lemma EntryEndsInDigit(e: Entry)
    ensures var s := PrintEntry(e); s != "" && IsDigit(s[|s| - 1])
  {
    var s := PrintEntry(e);
    match e
    case Single(c) => assert s == Decimal(c);
    case Range(lo, hi) => assert s[|s| - 1] == Decimal(hi)[|Decimal(hi)| - 1];
  }

  lemma PrintedEndsInDigit(es: seq<Entry>)
    requires es != []
    ensures var s := Join(Printed(es)); s != "" && IsDigit(s[|s| - 1])
  {
    EntryEndsInDigit(es[|es| - 1]);
    LastOfJoin(Printed(es));
  }

  lemma LineOfShort(s: string)
    requires 0 < |s| <= 63 && IsDigit(s[|s| - 1])
    ensures LineOf(Some(s + "\n")) == Some(s)
  {
    var t := s + "\n";
    assert Stripped(s) == s && t[..|s|] == s;
    assert |s| < 63 ==> Stripped(t) == Stripped(t[..|t| - 1]);
  }

  lemma LineOfLong(s: string, t: string)
    requires |t| == 63 && t <= s && t[62] != '\n' && t[62] != ' '
    ensures LineOf(Some(s + "\n")) == Some(t)
  {
    assert Stripped(t) == t && (s + "\n")[..63] == t;
  }

  /** A list of at most 63 characters and a newline, as sysfs writes it, reads back in full. */
  lemma FileRoundTrip(es: seq<Entry>, cpu: nat)
    requires es != [] && (forall e :: e in es ==> Printable(e)) && |Join(Printed(es))| <= 63
    ensures Siblings(cpu, Some(Join(Printed(es)) + "\n")) == Meaning(es)
  {
    PrintedEndsInDigit(es);
    LineOfShort(Join(Printed(es)));
    ListRoundTrip(es);
  }

  lemma {:induction false} JoinPrefix(items: seq<string>, k: nat)
    requires 0 < k <= |items|
    ensures Join(items[..k]) <= Join(items)
  {
    if k == |items| {
      assert items[..k] == items;
    } else if k > 1 {
      JoinPrefix(items[1..], k - 1);
      assert items[..k][1..] == items[1..][..k - 1];
    }
  }

  lemma {:induction false} ConcatLonger(parts: seq<seq<int>>, k: nat)
    requires k < |parts| && forall i :: 0 <= i < |parts| ==> parts[i] != []
    ensures |Concat(parts[..k])| < |Concat(parts)|
  {
    var n := |parts| - 1;
    if k < n {
      ConcatLonger(parts[..n], k);
      assert parts[..n][..k] == parts[..k];
    }
  }

  lemma MeaningOfMore(es: seq<Entry>, k: nat)
    requires 0 < k < |es| && forall e :: e in es ==> Printable(e)
    ensures 0 < |Meaning(es[..k])| < |Meaning(es)|
  {
    var parts := seq(|es|, i requires 0 <= i < |es| => EntryCpus(es[i]));
    assert parts[..k] == seq(|es[..k]|, i requires 0 <= i < |es[..k]| => EntryCpus(es[..k][i]));
    forall i | 0 <= i < |parts| ensures parts[i] != [] {
      assert Printable(es[i]);
    }
    ConcatLonger(parts, k);
    ConcatLonger(parts[..k], 0);
  }

  // ------------------------------------------------------------------ what is left of an entry that is cut

  /** What the kernel prints: CPU numbers fit an int, and a range has at least two CPUs. */
  predicate KernelEntry(e: Entry)
  {
    && Printable(e)
    && match e
       case Single(c) => c <= 0x7fff_ffff
       case Range(lo, hi) => lo < hi <= 0x7fff_ffff
  }

  ghost predicate KernelList(es: seq<Entry>) { forall e :: e in es ==> Printable(e) && KernelEntry(e) }

  lemma {:induction false} PrefixValue(d: string, k: nat)
    requires k <= |d| && forall i :: 0 <= i < |d| ==> IsDigit(d[i])
    ensures ValueOf(d[..k]) <= ValueOf(d)
  {
    if k == |d| {
      assert d[..k] == d;
    } else {
      var n := |d| - 1;
      PrefixValue(d[..n], k);
      assert d[..n][..k] == d[..k];
    }
  }

  /** The beginning of a printed number is a smaller number. */
  lemma CutDecimal(c: nat, k: nat)
    requires 0 < k < |Decimal(c)|
    ensures ValueOf(Decimal(c)[..k]) < c
  {
    var d := Decimal(c);
    assert c >= 10 && d[..|d| - 1] == Decimal(c / 10);
    PrefixValue(d[..|d| - 1], k);
    assert d[..|d| - 1][..k] == d[..k];
    DecimalValue(c / 10);
  }

  lemma ParseDigits(u: string)
    requires u != "" && (forall i :: 0 <= i < |u| ==> IsDigit(u[i])) && ValueOf(u) <= LONG_MAX
    ensures ParseItem(u) == Some(Item(ValueOf(u), ValueOf(u)))
  {
    PlainCString(u);
    assert u + "" == u;
    StrtolOfDigits(u, "");
  }

  lemma CutSingle(c: nat, k: nat)
    requires 0 < k < |Decimal(c)| && c <= 0x7fff_ffff
    ensures ItemCpus(Decimal(c)[..k]) == [ValueOf(Decimal(c)[..k])] != [c]
  {
    CutDecimal(c, k);
    ParseDigits(Decimal(c)[..k]);
  }

  lemma CutAfterDash(lo: nat)
    requires lo <= LONG_MAX
    ensures ParseItem(Decimal(lo) + "-") == None
  {
    var s := Decimal(lo) + "-";
    PlainCString(s);
    StrtolOfDecimal(lo, "-");
    assert s[|Decimal(lo)| + 1..] == "";
    assert ParseHigh(lo, "") == None;
  }

  lemma CutHigh(lo: nat, hi: nat, k: nat)
    requires lo < hi <= LONG_MAX && 0 < k < |Decimal(hi)|
    ensures var w := Decimal(hi)[..k];
            ParseItem(Decimal(lo) + ("-" + w)) == Bounded(lo, ValueOf(w), true) && ValueOf(w) < hi
  {
    var d, w := Decimal(lo), Decimal(hi)[..k];
    CutDecimal(hi, k);
    PlainRange(d, w);
    PlainCString(d + ("-" + w));
    StrtolOfDecimal(lo, "-" + w);
    StrtolOfDigits(w, "");
    assert w + "" == w;
    DashText(d, w, lo, ValueOf(w));
  }

  lemma CutLow(lo: nat, k: nat)
    requires 0 < k <= |Decimal(lo)| && lo <= LONG_MAX
    ensures |ItemCpus(Decimal(lo)[..k])| == 1
  {
    var d := Decimal(lo);
    DecimalValue(lo);
    if k < |d| {
      CutDecimal(lo, k);
      ParseDigits(d[..k]);
    } else {
      assert d[..k] == d;
      ParseDigits(d);
    }
  }

  /** The beginning of a range names fewer CPUs than the range. */
  lemma CutRange(lo: nat, hi: nat, k: nat)
    requires KernelEntry(Range(lo, hi)) && 0 < k < |PrintEntry(Range(lo, hi))|
    ensures |ItemCpus(PrintEntry(Range(lo, hi))[..k])| < |EntryCpus(Range(lo, hi))|
  {
    var d, e := Decimal(lo), Decimal(hi);
    var p := PrintEntry(Range(lo, hi));
    assert p == d + ("-" + e) && |p| == |d| + 1 + |e|;
    if k <= |d| {
      assert p[..k] == d[..k];
      CutLow(lo, k);
    } else if k == |d| + 1 {
      assert p[..k] == d + "-";
      CutAfterDash(lo);
    } else {
      var m := k - |d| - 1;
      assert p[..k] == d + ("-" + e[..m]);
      CutHigh(lo, hi, m);
    }
  }

  lemma CpusOfSingle(c: nat)
    requires c <= 0x7fff_ffff
    ensures EntryCpus(Single(c)) == [c]
  {
    assert Expand(c, c) == [c];
  }

  lemma DifferentLengths(a: seq<int>, b: seq<int>)
    requires |a| < |b|
    ensures a != b
  {
  }

  /** So a cut entry is not what it was, and names no more CPUs. */
  lemma CutEntry(e: Entry, k: nat)
    requires KernelEntry(e) && 0 < k < |PrintEntry(e)|
    ensures ItemCpus(PrintEntry(e)[..k]) != EntryCpus(e) && |ItemCpus(PrintEntry(e)[..k])| <= |EntryCpus(e)|
  {
    match e
    case Single(c) =>
      CutSingle(c, k);
      CpusOfSingle(c);
    case Range(lo, hi) =>
      CutRange(lo, hi, k);
      DifferentLengths(ItemCpus(PrintEntry(e)[..k]), EntryCpus(e));
  }

  // ------------------------------------------------------------------ what is left of a list that is cut

  lemma {:induction false} ConcatFront(a: seq<int>, parts: seq<seq<int>>)
    ensures Concat([a] + parts) == a + Concat(parts)
  {
    if parts != [] {
      var n := |parts| - 1;
      ConcatFront(a, parts[..n]);
      assert ([a] + parts)[..n + 1] == [a] + parts[..n];
    }
  }

  lemma MeaningFront(es: seq<Entry>)
    requires es != [] && forall e :: e in es ==> Printable(e)
    ensures Meaning(es) == EntryCpus(es[0]) + Meaning(es[1..])
  {
    var parts := seq(|es|, i requires 0 <= i < |es| => EntryCpus(es[i]));
    var rest := seq(|es[1..]|, i requires 0 <= i < |es[1..]| => EntryCpus(es[1..][i]));
    assert parts == [EntryCpus(es[0])] + rest;
    ConcatFront(EntryCpus(es[0]), rest);
  }

  /** A list without a comma is one item. */
  lemma CpusOfOne(s: string)
    requires s != "" && CommaFree(s)
    ensures Cpus(s) == ItemCpus(s)
  {
    assert s + "" == s;
    CommaIn(s, "");
    assert Items(s) == [s];
    assert WellFormedItem(s) ==> ItemsCpus([s]) == [ItemCpus(s)];
    assert !WellFormedItem(s) ==> s in Items(s);
  }

  lemma ItemsCpusFront(s: string, items: seq<string>)
    ensures ItemsCpus([s] + items) == [ItemCpus(s)] + ItemsCpus(items)
  {
    var l, r := ItemsCpus([s] + items), [ItemCpus(s)] + ItemsCpus(items);
    assert |l| == |r|;
    forall i | 0 <= i < |l| ensures l[i] == r[i] {
      if i > 0 {
        assert ([s] + items)[i] == items[i - 1];
        assert r[i] == ItemsCpus(items)[i - 1];
      }
    }
  }

  lemma FrontItem(s: string, items: seq<string>)
    ensures Concat(ItemsCpus([s] + items)) == ItemCpus(s) + Concat(ItemsCpus(items))
  {
    ItemsCpusFront(s, items);
    ConcatFront(ItemCpus(s), ItemsCpus(items));
  }

  /** With a well-formed item in front, a list means that item and the rest, or nothing if the rest is malformed. */
  lemma CpusFront(s: string, t: string)
    requires CommaFree(s) && WellFormedItem(s) && t != ""
    ensures Cpus(s + ("," + t)) == if Cpus(t) == [] then [] else ItemCpus(s) + Cpus(t)
  {
    FirstItem(s, t);
    if Cpus(t) == [] {
      var item :| item in Items(t) && !WellFormedItem(item);
      assert item in Items(s + ("," + t));
    } else {
      FrontItem(s, Items(t));
    }
  }

  /** A comma at the end is forgiven. */
  lemma CpusOfTrailing(s: string)
    requires s != "" && CommaFree(s)
    ensures Cpus(s + ",") == Cpus(s)
  {
    assert s + ("," + "") == s + "," && s + "" == s;
    FirstItem(s, "");
    CommaIn(s, "");
    assert Items(s) == [s] == Items(s + ",");
  }

  lemma PlainIsCommaFree(s: string)
    requires Plain(s)
    ensures CommaFree(s)
  {
  }

  /** The list is a single entry. */
  lemma CutOne(e: Entry, t: string)
    requires KernelEntry(e) && t != "" && t < PrintEntry(e)
    ensures Cpus(t) != EntryCpus(e)
  {
    EntryRoundTrip(e);
    assert t == PrintEntry(e)[..|t|];
    CutEntry(e, |t|);
    CpusOfOne(t);
  }

  /** The cut falls in the first of several entries, or right behind it. */
  lemma CutInFirst(e: Entry, t: string)
    requires KernelEntry(e) && t != "" && (t <= PrintEntry(e) || t == PrintEntry(e) + ",")
    ensures |Cpus(t)| <= |EntryCpus(e)|
  {
    var p := PrintEntry(e);
    EntryRoundTrip(e);
    PrintedItem(e);
    PlainIsCommaFree(p);
    if t == p + "," {
      CpusOfTrailing(p);
      CpusOfOne(p);
    } else {
      assert t == p[..|t|];
      CpusOfOne(t);
      if |t| < |p| {
        CutEntry(e, |t|);
      } else {
        assert t == p;
      }
    }
  }

  lemma MeaningNonEmpty(es: seq<Entry>)
    requires es != [] && forall e :: e in es ==> Printable(e)
    ensures Meaning(es) != []
  {
    MeaningFront(es);
    assert Printable(es[0]);
  }

  /** The printed list, taken apart behind its first entry. */
  lemma JoinFront(es: seq<Entry>)
    requires |es| > 1
    ensures Join(Printed(es)) == PrintEntry(es[0]) + ("," + Join(Printed(es[1..])))
  {
    assert Printed(es)[1..] == Printed(es[1..]);
  }

  lemma Cancel(a: seq<int>, b: seq<int>, c: seq<int>)
    requires b != c
    ensures a + b != a + c
  {
    assert (a + b)[|a|..] == b && (a + c)[|a|..] == c;
  }

  /** The cut falls behind the first entry and its comma. */
  lemma CutBehindFirst(e: Entry, u: string, rest: seq<Entry>)
    requires KernelEntry(e) && KernelList(rest) && rest != [] && u != "" && Cpus(u) != Meaning(rest)
    ensures Cpus(PrintEntry(e) + ("," + u)) != EntryCpus(e) + Meaning(rest)
  {
    EntryRoundTrip(e);
    PrintedItem(e);
    PlainIsCommaFree(PrintEntry(e));
    CpusFront(PrintEntry(e), u);
    MeaningNonEmpty(rest);
    Cancel(EntryCpus(e), Cpus(u), Meaning(rest));
  }

  lemma SplitPrefix(t: string, p: string, s: string)
    requires t < p + ("," + s)
    ensures |t| <= |p| ==> t <= p
    ensures |t| == |p| + 1 ==> t == p + ","
    ensures |t| > |p| + 1 ==> t == p + ("," + t[|p| + 1..]) && t[|p| + 1..] < s
  {
    var whole := p + ("," + s);
    assert whole[..|p|] == p && whole[|p|] == ',' && whole[|p| + 1..] == s;
    assert t == whole[..|t|];
  }

  lemma CutInMany(e: Entry, rest: seq<Entry>, s: string, t: string)
    requires KernelEntry(e) && KernelList(rest) && rest != [] && t != "" && t < PrintEntry(e) + ("," + s)
    requires |t| > |PrintEntry(e)| + 1 ==> Cpus(t[|PrintEntry(e)| + 1..]) != Meaning(rest)
    ensures Cpus(t) != EntryCpus(e) + Meaning(rest)
  {
    MeaningNonEmpty(rest);
    SplitPrefix(t, PrintEntry(e), s);
    if |t| <= |PrintEntry(e)| + 1 {
      CutInFirst(e, t);
    } else {
      CutBehindFirst(e, t[|PrintEntry(e)| + 1..], rest);
    }
  }

  lemma CutAlone(e: Entry, t: string)
    requires KernelEntry(e) && t != "" && t < Join(Printed([e]))
    ensures Cpus(t) != Meaning([e])
  {
    assert Printed([e]) == [PrintEntry(e)];
    CutOne(e, t);
    MeaningFront([e]);
    assert Meaning([e][1..]) == [];
  }

  lemma LaterPart(es: seq<Entry>, t: string)
    requires |es| > 1 && t < Join(Printed(es)) && |t| > |PrintEntry(es[0])| + 1
    ensures t[|PrintEntry(es[0])| + 1..] < Join(Printed(es[1..]))
  {
    JoinFront(es);
    SplitPrefix(t, PrintEntry(es[0]), Join(Printed(es[1..])));
  }

  /** A list of several entries, taken apart behind the first. */
  lemma FirstAndRest(es: seq<Entry>)
    requires |es| > 1 && KernelList(es)
    ensures KernelEntry(es[0]) && KernelList(es[1..]) && es[1..] != []
    ensures Join(Printed(es)) == PrintEntry(es[0]) + ("," + Join(Printed(es[1..])))
    ensures Meaning(es) == EntryCpus(es[0]) + Meaning(es[1..])
  {
    JoinFront(es);
    MeaningFront(es);
  }

  /** No list that is cut anywhere, inside a number, at a dash or at a comma, still means what it meant. */
  lemma {:induction false} CutListDiffers(es: seq<Entry>, t: string)
    requires es != [] && KernelList(es) && t != "" && t < Join(Printed(es))
    ensures Cpus(t) != Meaning(es)
    decreases |es|
  {
    if |es| == 1 {
      assert es == [es[0]];
      CutAlone(es[0], t);
    } else {
      var e, rest := es[0], es[1..];
      FirstAndRest(es);
      if |t| > |PrintEntry(e)| + 1 {
        LaterPart(es, t);
        CutListDiffers(rest, t[|PrintEntry(e)| + 1..]);
      }
      CutInMany(e, rest, Join(Printed(rest)), t);
    }
  }

  // ------------------------------------------------------------------ through the file

  predicate Visible(s: string) { forall i :: 0 <= i < |s| ==> IsDigit(s[i]) || s[i] == '-' || s[i] == ',' }

  lemma VisibleParts(s: string, t: string)
    requires Visible(s) && Visible(t)
    ensures Visible(s + ("," + t))
  {
  }

  lemma {:induction false} PrintedIsVisible(es: seq<Entry>)
    requires forall e :: e in es ==> Printable(e)
    ensures Visible(Join(Printed(es)))
  {
    if es != [] {
      EntryRoundTrip(es[0]);
      assert Visible(PrintEntry(es[0]));
      if |es| == 1 {
        assert Join(Printed(es)) == PrintEntry(es[0]);
      } else {
        PrintedIsVisible(es[1..]);
        JoinFront(es);
        VisibleParts(PrintEntry(es[0]), Join(Printed(es[1..])));
      }
    }
  }

  /** A longer list is cut after 63 characters, and what is left is read as if it were the list: never with its
      meaning. */
  lemma LongFileIsCut(es: seq<Entry>, cpu: nat)
    requires es != [] && KernelList(es) && |Join(Printed(es))| > 63
    ensures Siblings(cpu, Some(Join(Printed(es)) + "\n")) == Cpus(Join(Printed(es))[..63]) != Meaning(es)
  {
    var s := Join(Printed(es));
    var t := s[..63];
    PrintedIsVisible(es);
    LineOfLong(s, t);
    CutListDiffers(es, t);
  }

  /** Of the lists the kernel prints, exactly those of at most 63 characters read back. */
  lemma FileRoundTripIff(es: seq<Entry>, cpu: nat)
    requires es != [] && KernelList(es)
    ensures Siblings(cpu, Some(Join(Printed(es)) + "\n")) == Meaning(es) <==> |Join(Printed(es))| <= 63
  {
    if |Join(Printed(es))| <= 63 {
      FileRoundTrip(es, cpu);
    } else {
      LongFileIsCut(es, cpu);
    }
  }

  // ------------------------------------------------------------------ two lists that are cut

  /** Where the cut falls right behind an entry, the entries before it are what is read. */
  lemma CutBehindEntry(es: seq<Entry>, k: nat, cpu: nat)
    requires 0 < k < |es| && (forall e :: e in es ==> Printable(e)) && |Join(Printed(es[..k]))| == 63
    ensures Siblings(cpu, Some(Join(Printed(es)) + "\n")) == Meaning(es[..k])
    ensures Meaning(es[..k]) != [] && Meaning(es[..k]) != Meaning(es)
  {
    assert Printed(es)[..k] == Printed(es[..k]);
    JoinPrefix(Printed(es), k);
    PrintedEndsInDigit(es[..k]);
    LineOfLong(Join(Printed(es)), Join(Printed(es[..k])));
    ListRoundTrip(es[..k]);
    MeaningOfMore(es, k);
  }

  lemma {:induction false} JoinOfZeros(n: nat)
    requires n > 0
    ensures |Join(Printed(seq(n, _ => Single(0))))| == 2 * n - 1
  {
    var items := Printed(seq(n, _ => Single(0)));
    if n > 1 {
      JoinOfZeros(n - 1);
      assert items[1..] == Printed(seq(n - 1, _ => Single(0)));
    }
  }

  /** Such a list: 33 entries of which 32 are read. */
  lemma LongFileExists() returns (es: seq<Entry>)
    ensures |es| == 33 && (forall e :: e in es ==> Printable(e)) && |Join(Printed(es[..32]))| == 63
  {
    es := seq(33, _ => Single(0));
    assert es[..32] == seq(32, _ => Single(0));
    JoinOfZeros(32);
  }

  function Zeros(n: nat): (es: seq<Entry>)
    ensures |es| == n && forall e :: e in es ==> e == Single(0)
  {
    seq(n, _ => Single(0))
  }

  function ZeroText(n: nat): (s: string)
    ensures |s| == 2 * n
  {
    if n == 0 then "" else "0" + ("," + ZeroText(n - 1))
  }

  lemma Regroup(s: string, t: string)
    ensures "0" + ("," + (s + t)) == ("0" + ("," + s)) + t
  {
  }

  lemma {:induction false} ZerosThen(n: nat, last: Entry)
    requires KernelEntry(last)
    ensures Join(Printed(Zeros(n) + [last])) == ZeroText(n) + PrintEntry(last)
  {
    var es := Zeros(n) + [last];
    if n == 0 {
      assert es == [last];
    } else {
      ZerosThen(n - 1, last);
      assert es[1..] == Zeros(n - 1) + [last] && PrintEntry(es[0]) == "0";
      JoinFront(es);
      Regroup(ZeroText(n - 1), PrintEntry(last));
    }
  }

  lemma {:induction false} MeaningOfZerosThen(n: nat, c: nat)
    requires c <= 0x7fff_ffff
    ensures KernelList(Zeros(n) + [Single(c)]) && Meaning(Zeros(n) + [Single(c)]) == seq(n, _ => 0) + [c]
  {
    var es := Zeros(n) + [Single(c)];
    MeaningFront(es);
    if n == 0 {
      assert es == [Single(c)] && es[1..] == [];
      assert Meaning([]) == [];
    } else {
      MeaningOfZerosThen(n - 1, c);
      assert es[1..] == Zeros(n - 1) + [Single(c)];
      assert EntryCpus(es[0]) == [0];
    }
  }

  /** When a cut list is the print of another, that one is read. */
  lemma ReadAs(es: seq<Entry>, read: seq<Entry>, cpu: nat)
    requires read != [] && KernelList(es) && KernelList(read)
    requires |Join(Printed(read))| == 63 && Join(Printed(read)) <= Join(Printed(es))
    ensures Siblings(cpu, Some(Join(Printed(es)) + "\n")) == Meaning(read)
  {
    PrintedEndsInDigit(read);
    LineOfLong(Join(Printed(es)), Join(Printed(read)));
    ListRoundTrip(read);
  }

  /** A cut inside a number names a CPU that is not in the list: of 31 entries 0 and an entry 10, CPU 1 is read. */
  lemma WrongCpu(cpu: nat) returns (es: seq<Entry>)
    ensures es != [] && KernelList(es) && |Join(Printed(es))| == 64
    ensures Meaning(es) == seq(31, _ => 0) + [10]
    ensures Siblings(cpu, Some(Join(Printed(es)) + "\n")) == seq(31, _ => 0) + [1]
  {
    es := Zeros(31) + [Single(10)];
    var read := Zeros(31) + [Single(1)];
    MeaningOfZerosThen(31, 10);
    MeaningOfZerosThen(31, 1);
    ZerosThen(31, Single(10));
    ZerosThen(31, Single(1));
    assert Decimal(10) == Decimal(1) + "0";
    assert ZeroText(31) + Decimal(1) <= ZeroText(31) + Decimal(10);
    ReadAs(es, read, cpu);
  }
}
