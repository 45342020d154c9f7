/** rt_core_siblings: the kernel's CPU lists, such as "6,14" or "0-3,8". */
module CpuList {
  import opened Machine
  import opened LatencyHold

  const LONG_MAX: int := 0x7fff_ffff_ffff_ffff

  // ------------------------------------------------------------------ strtol

  predicate IsDigit(c: char) { '0' <= c <= '9' }

  predicate IsSpace(c: char) { c == ' ' || 9 <= c as int <= 13 }

  function SkipSpace(s: string): (i: nat)
    ensures i <= |s| && (i < |s| ==> !IsSpace(s[i]))
  {
    if s != "" && IsSpace(s[0]) then 1 + SkipSpace(s[1..]) else 0
  }

  /** Length of the run of digits s begins with. */
  function DigitRun(s: string): (n: nat)
    ensures n <= |s| && forall i :: 0 <= i < n ==> IsDigit(s[i])
    ensures n < |s| ==> !IsDigit(s[n])
  {
    if s != "" && IsDigit(s[0]) then 1 + DigitRun(s[1..]) else 0
  }

  function ValueOf(digits: string): (v: nat)
    requires forall i :: 0 <= i < |digits| ==> IsDigit(digits[i])
  {
    if digits == "" then 0
    else
      var n := |digits| - 1;
      assert IsDigit(digits[n]);
      10 * ValueOf(digits[..n]) + (digits[n] as int - '0' as int)
  }

  function Saturated(v: int): int
  {
    if v > LONG_MAX then LONG_MAX else if v < -LONG_MAX - 1 then -LONG_MAX - 1 else v
  }

  /** strtol in base 10: the value, and how many characters it used, 0 when there is no number. */
  function Strtol(s: string): (r: (int, nat))
    ensures r.1 <= |s|
  {
    var a := SkipSpace(s);
    var b := if a < |s| && (s[a] == '-' || s[a] == '+') then a + 1 else a;
    var n := DigitRun(s[b..]);
    if n == 0 then (0, 0)
    else
      var v: int := ValueOf(s[b..][..n]);
      (Saturated(if b > a && s[a] == '-' then -v else v), b + n)
  }

  // ------------------------------------------------------------------ what a list means

  datatype Item = Item(lo: int, hi: int)

  /** item.c_str() ends at the first NUL. */
  function CString(item: string): (s: string)
    ensures |s| <= |item| && (|s| < |item| ==> item[|s|] == '\0')
    ensures forall i :: 0 <= i < |s| ==> s[i] == item[i] != '\0'
  {
    if item == "" || item[0] == '\0' then "" else [item[0]] + CString(item[1..])
  }

  /** The final test: nothing may follow, and the range must be sane. */
  function Bounded(lo: int, hi: int, ended: bool): (r: Option<Item>)
    ensures r.Some? ==> 0 <= r.value.lo <= r.value.hi <= r.value.lo + 4096
  {
    if !ended || lo < 0 || hi < lo || hi - lo > 4096 then None else Some(Item(lo, hi))
  }

  function ParseHigh(lo: int, s: string): (r: Option<Item>)
    ensures r.Some? ==> 0 <= r.value.lo <= r.value.hi <= r.value.lo + 4096
  {
    var (hi, used) := Strtol(s);
    if used == 0 then None else Bounded(lo, hi, used == |s|)
  }

  function ParseText(s: string): (r: Option<Item>)
    ensures r.Some? ==> 0 <= r.value.lo <= r.value.hi <= r.value.lo + 4096
  {
    var (lo, used) := Strtol(s);
    if used == 0 then None
    else if used < |s| && s[used] == '-' then ParseHigh(lo, s[used + 1..])
    else Bounded(lo, lo, used == |s|)
  }

  function ParseItem(item: string): (r: Option<Item>)
    ensures r.Some? ==> 0 <= r.value.lo <= r.value.hi <= r.value.lo + 4096
  {
    ParseText(CString(item))
  }

  function CommaAt(s: string): (i: nat)
    ensures i <= |s| && (i < |s| ==> s[i] == ',') && forall k :: 0 <= k < i ==> s[k] != ','
  {
    if s == "" || s[0] == ',' then 0 else 1 + CommaAt(s[1..])
  }

  /** The items getline finds; an empty one at the very end is not among them. */
  function Items(list: string): (items: seq<string>)
    ensures list != "" ==> items != []
    decreases |list|
  {
    if list == "" then []
    else
      var i := CommaAt(list);
      [list[..i]] + if i == |list| then [] else Items(list[i + 1..])
  }

  /** static_cast<int> of a value that is not negative. */
  function ToInt(c: nat): (r: int)
    ensures c <= 0x7fff_ffff ==> r == c
  {
    var w := Wrap32(c);
    if w <= 0x7fff_ffff then w else w - TWO_32
  }

  function Expand(lo: int, hi: int): (cpus: seq<int>)
    requires 0 <= lo <= hi + 1
    ensures |cpus| == hi + 1 - lo && forall k :: 0 <= k < |cpus| ==> cpus[k] == ToInt(lo + k)
  {
    seq(hi + 1 - lo, k requires 0 <= k => ToInt(lo + k))
  }

  predicate WellFormedItem(item: string) { ParseItem(item).Some? }

  function ItemCpus(item: string): (cpus: seq<int>)
    ensures WellFormedItem(item) ==> cpus != []
  {
    match ParseItem(item)
    case Some(r) => Expand(r.lo, r.hi)
    case None => []
  }

  function ItemsCpus(items: seq<string>): (parts: seq<seq<int>>)
    ensures |parts| == |items| && forall i :: 0 <= i < |items| ==> parts[i] == ItemCpus(items[i])
  {
    seq(|items|, i requires 0 <= i < |items| => ItemCpus(items[i]))
  }

  function Concat(parts: seq<seq<int>>): (s: seq<int>)
    ensures |parts| == 1 ==> s == parts[0]
    ensures forall i :: 0 <= i < |parts| && parts[i] != [] ==> s != []
  {
    if parts == [] then [] else Concat(parts[..|parts| - 1]) + parts[|parts| - 1]
  }

  /** All or nothing: one malformed item and the whole list counts for nothing. */
  function Cpus(list: string): (cpus: seq<int>)
    ensures cpus == [] <==> list == "" || exists item :: item in Items(list) && !WellFormedItem(item)
  {
    if forall item :: item in Items(list) ==> WellFormedItem(item) then
      assert list != "" ==> WellFormedItem(Items(list)[0]);
      Concat(ItemsCpus(Items(list)))
    else []
  }

  lemma Split(list: string)
    requires list != ""
    ensures var i := CommaAt(list);
            Items(list) == [list[..i]] + Items(if i == |list| then "" else list[i + 1..])
  {
  }

  lemma OneMoreItem(done: seq<string>, item: string)
    ensures Concat(ItemsCpus(done + [item])) == Concat(ItemsCpus(done)) + ItemCpus(item)
  {
    assert ItemsCpus(done + [item])[..|done|] == ItemsCpus(done);
  }

  /** The loop that appends an item's CPUs one by one. */
  method Append(out: seq<int>, item: Item) returns (more: seq<int>)
    requires 0 <= item.lo <= item.hi
    ensures more == out + Expand(item.lo, item.hi)
  {
    more := out;
    var c := item.lo;
    while c <= item.hi
      invariant item.lo <= c <= item.hi + 1
      invariant more == out + Expand(item.lo, c - 1)
    {
      assert Expand(item.lo, c) == Expand(item.lo, c - 1) + [ToInt(c)];
      more := more + [ToInt(c)];
      c := c + 1;
    }
  }

  // ------------------------------------------------------------------ the file

  function Stripped(s: string): (r: string)
    ensures |r| <= |s| && r == s[..|r|]
  {
    if s != "" && (s[|s| - 1] == '\n' || s[|s| - 1] == ' ') then Stripped(s[..|s| - 1]) else s
  }

  /** What read_line makes of a file: its first 63 bytes, without trailing newlines and blanks; nothing if nothing
      is left. */
  function LineOf(file: Option<string>): (line: Option<string>)
  {
    match file
    case None => None
    case Some(content) =>
      var s := Stripped(if |content| <= 63 then content else content[..63]);
      if s == "" then None else Some(s)
  }

  method ReadLine(file: Option<string>) returns (line: Option<string>)
    ensures line == LineOf(file)
  {
    if file == None { return None; }
    var content := file.value;
    var out := if |content| <= 63 then content else content[..63];
    ghost var all := out;
    while out != "" && (out[|out| - 1] == '\n' || out[|out| - 1] == ' ')
      invariant Stripped(out) == Stripped(all)
      decreases |out|
    {
      out := out[..|out| - 1];
    }
    return if out == "" then None else Some(out);
  }

  /** What rt_core_siblings answers when the file says `file`. */
  function Siblings(cpu: int, file: Option<string>): (cpus: seq<int>)
  {
    if cpu >= 0 && LineOf(file).Some? then Cpus(LineOf(file).value) else []
  }

  /** The items of the line up to `rest` are well formed, and `out` has their CPUs. */
  ghost predicate Parsed(line: string, done: seq<string>, rest: string, out: seq<int>)
  {
    && Items(line) == done + Items(rest)
    && (forall item :: item in done ==> WellFormedItem(item)) && out == Concat(ItemsCpus(done))
  }

  lemma ConcatAssoc<T>(a: seq<T>, b: seq<T>, c: seq<T>)
    ensures (a + b) + c == a + (b + c)
  {
  }

  lemma ParsedMore(line: string, done: seq<string>, rest: string, out: seq<int>, item: string, more: string)
    requires Parsed(line, done, rest, out) && Items(rest) == [item] + Items(more) && WellFormedItem(item)
    ensures Parsed(line, done + [item], more, out + ItemCpus(item))
  {
    OneMoreItem(done, item);
    ConcatAssoc(done, [item], Items(more));
  }

  lemma ParsedBad(line: string, done: seq<string>, rest: string, out: seq<int>, item: string, more: string)
    requires Parsed(line, done, rest, out) && Items(rest) == [item] + Items(more) && !WellFormedItem(item)
    ensures Cpus(line) == []
  {
    assert Items(line)[|done|] == item;
  }

  lemma ParsedAll(line: string, done: seq<string>, out: seq<int>)
    requires Parsed(line, done, "", out)
    ensures Cpus(line) == out
  {
    assert Items(line) == done;
  }

  /** The loop over the items of a line. */
  method ParseLine(line: string) returns (out: seq<int>)
    ensures out == Cpus(line)
  {
    out := [];
    var rest := line;
    ghost var done: seq<string> := [];
    assert Items(line) == [] + Items(line);
    while rest != ""
      invariant Parsed(line, done, rest, out)
      decreases |rest|
    {
      Split(rest);
      var i := CommaAt(rest);
      var item := rest[..i];
      var more := if i == |rest| then "" else rest[i + 1..];
      var r := ParseItem(item);
      if r.None? {
        ParsedBad(line, done, rest, out, item, more);
        return [];
      }
      ParsedMore(line, done, rest, out, item, more);
      out := Append(out, r.value);
      done, rest := done + [item], more;
    }
    ParsedAll(line, done, out);
  }

  /** rt_core_siblings. */
  method CoreSiblings(cpu: int, file: Option<string>) returns (out: seq<int>)
    ensures out == Siblings(cpu, file)
  {
    if cpu < 0 { return []; }
    var line := ReadLine(file);
    if line == None { return []; }
    out := ParseLine(line.value);
  }

  // ------------------------------------------------------------------ lists of items

  function Join(items: seq<string>): (s: string)
  {
    if items == [] then "" else if |items| == 1 then items[0] else items[0] + ("," + Join(items[1..]))
  }

  predicate CommaFree(s: string) { forall i :: 0 <= i < |s| ==> s[i] != ',' }

  // ------------------------------------------------------------------ round trip

  datatype Entry = Single(cpu: nat) | Range(lo: nat, hi: nat)

  predicate Printable(e: Entry)
  {
    match e
    case Single(c) => c <= LONG_MAX
    case Range(lo, hi) => lo <= hi <= LONG_MAX && hi - lo <= 4096
  }

  function PrintEntry(e: Entry): (s: string)
  {
    match e
    case Single(c) => Decimal(c)
    case Range(lo, hi) => Decimal(lo) + "-" + Decimal(hi)
  }

  function EntryItem(e: Entry): (i: Item) { if e.Single? then Item(e.cpu, e.cpu) else Item(e.lo, e.hi) }

  function EntryCpus(e: Entry): (cpus: seq<int>)
    requires Printable(e)
  {
    Expand(EntryItem(e).lo, EntryItem(e).hi)
  }

  /** The CPUs the entries name, in order. */
  function Meaning(es: seq<Entry>): (cpus: seq<int>)
    requires forall e :: e in es ==> Printable(e)
  {
    Concat(seq(|es|, i requires 0 <= i < |es| => EntryCpus(es[i])))
  }

  lemma {:induction false} DecimalValue(n: nat)
    ensures ValueOf(Decimal(n)) == n
  {
    var d := Decimal(n);
    assert d[|d| - 1] == '0' + (n % 10) as char;
    if n >= 10 {
      DecimalValue(n / 10);
      assert d[..|d| - 1] == Decimal(n / 10);
    } else {
      assert d[..|d| - 1] == "";
    }
  }

  lemma {:induction false} RunOf(digits: string, rest: string)
    requires forall i :: 0 <= i < |digits| ==> IsDigit(digits[i])
    requires rest == "" || !IsDigit(rest[0])
    ensures DigitRun(digits + rest) == |digits|
  {
    if digits != "" {
      assert (digits + rest)[1..] == digits[1..] + rest;
      RunOf(digits[1..], rest);
    } else {
      assert digits + rest == rest;
    }
  }

  /** strtol reads a number that fits to the end of its digits. */
  lemma StrtolOfDigits(d: string, rest: string)
    requires d != "" && (forall i :: 0 <= i < |d| ==> IsDigit(d[i])) && ValueOf(d) <= LONG_MAX
    requires rest == "" || !IsDigit(rest[0])
    ensures Strtol(d + rest) == (ValueOf(d) as int, |d|)
  {
    var s := d + rest;
    assert s[0] == d[0] && IsDigit(s[0]);
    RunOf(d, rest);
    assert s[0..] == s && s[..|d|] == d;
  }

  /** strtol reads back a printed number and stops right after it. */
  lemma StrtolOfDecimal(n: nat, rest: string)
    requires n <= LONG_MAX && (rest == "" || !IsDigit(rest[0]))
    ensures Strtol(Decimal(n) + rest) == (n as int, |Decimal(n)|)
  {
    DecimalValue(n);
    StrtolOfDigits(Decimal(n), rest);
  }

  predicate Plain(s: string) { forall i :: 0 <= i < |s| ==> IsDigit(s[i]) || s[i] == '-' }

  lemma {:induction false} PlainCString(s: string)
    requires Plain(s)
    ensures CString(s) == s
  {
    if s != "" {
      PlainCString(s[1..]);
    }
  }

  lemma SingleRoundTrip(c: nat)
    requires c <= LONG_MAX
    ensures Plain(Decimal(c)) && ParseItem(Decimal(c)) == Some(Item(c, c))
  {
    var s := Decimal(c);
    PlainCString(s);
    assert s + "" == s;
    StrtolOfDecimal(c, "");
  }

  lemma DashText(d: string, e: string, lo: int, hi: int)
    requires Strtol(d + ("-" + e)) == (lo, |d|) && Strtol(e) == (hi, |e|) && |d| > 0 && |e| > 0
    ensures ParseText(d + ("-" + e)) == Bounded(lo, hi, true)
  {
    var s := d + ("-" + e);
    assert s[|d|] == '-';
    assert s[|d| + 1..] == e;
    assert ParseHigh(lo, e) == Bounded(lo, hi, true);
  }

  lemma RangeText(lo: nat, hi: nat)
    requires lo <= hi <= LONG_MAX && hi - lo <= 4096
    ensures ParseText(Decimal(lo) + ("-" + Decimal(hi))) == Some(Item(lo, hi))
  {
    StrtolOfDecimal(lo, "-" + Decimal(hi));
    StrtolOfDecimal(hi, "");
    assert Decimal(hi) + "" == Decimal(hi);
    DashText(Decimal(lo), Decimal(hi), lo, hi);
  }

  lemma PlainRange(d: string, e: string)
    requires Plain(d) && Plain(e)
    ensures Plain(d + "-" + e) && d + "-" + e == d + ("-" + e)
  {
  }

  lemma RangeRoundTrip(lo: nat, hi: nat)
    requires lo <= hi <= LONG_MAX && hi - lo <= 4096
    ensures Plain(Decimal(lo) + "-" + Decimal(hi))
    ensures ParseItem(Decimal(lo) + "-" + Decimal(hi)) == Some(Item(lo, hi))
  {
    PlainRange(Decimal(lo), Decimal(hi));
    PlainCString(Decimal(lo) + "-" + Decimal(hi));
    RangeText(lo, hi);
  }

  lemma EntryRoundTrip(e: Entry)
    requires Printable(e)
    ensures Plain(PrintEntry(e)) && PrintEntry(e) != "" && ParseItem(PrintEntry(e)) == Some(EntryItem(e))
  {
    match e
    case Single(c) => SingleRoundTrip(c);
    case Range(lo, hi) => RangeRoundTrip(lo, hi);
  }

  lemma PrintedItem(e: Entry)
    requires Printable(e)
    ensures WellFormedItem(PrintEntry(e)) && ItemCpus(PrintEntry(e)) == EntryCpus(e)
  {
    EntryRoundTrip(e);
  }

  function Printed(es: seq<Entry>): (items: seq<string>)
    ensures |items| == |es| && forall i :: 0 <= i < |es| ==> items[i] == PrintEntry(es[i])
  {
    seq(|es|, i requires 0 <= i < |es| => PrintEntry(es[i]))
  }

  lemma {:induction false} CommaIn(s: string, rest: string)
    requires CommaFree(s) && (rest == "" || rest[0] == ',')
    ensures CommaAt(s + rest) == |s|
  {
    if s == "" {
      assert s + rest == rest;
    } else {
      assert (s + rest)[1..] == s[1..] + rest;
      CommaIn(s[1..], rest);
    }
  }

  lemma FirstItem(s: string, t: string)
    requires CommaFree(s)
    ensures Items(s + ("," + t)) == [s] + Items(t)
  {
    var list := s + ("," + t);
    CommaIn(s, "," + t);
    assert list[..|s|] == s;
    assert list[|s| + 1..] == t;
    Split(list);
  }

  lemma {:induction false} ItemsOfJoin(items: seq<string>)
    requires forall item :: item in items ==> CommaFree(item)
    requires items != [] ==> items[|items| - 1] != ""
    ensures Items(Join(items)) == items
  {
    if |items| == 1 {
      assert CommaFree(items[0]) && items[0] + "" == items[0];
      CommaIn(items[0], "");
    } else if items != [] {
      assert CommaFree(items[0]);
      ItemsOfJoin(items[1..]);
      FirstItem(items[0], Join(items[1..]));
      assert [items[0]] + items[1..] == items;
    }
  }

  lemma ItemsOfPrinted(es: seq<Entry>)
    requires forall e :: e in es ==> Printable(e)
    ensures Items(Join(Printed(es))) == Printed(es)
  {
    var items := Printed(es);
    forall i | 0 <= i < |items| ensures CommaFree(items[i]) && items[i] != "" {
      EntryRoundTrip(es[i]);
    }
    ItemsOfJoin(items);
  }

  lemma CpusOfPrinted(es: seq<Entry>)
    requires forall e :: e in es ==> Printable(e)
    ensures forall item :: item in Printed(es) ==> WellFormedItem(item)
    ensures Concat(ItemsCpus(Printed(es))) == Meaning(es)
  {
    var items := Printed(es);
    forall i | 0 <= i < |items| ensures WellFormedItem(items[i]) && ItemCpus(items[i]) == EntryCpus(es[i]) {
      PrintedItem(es[i]);
    }
    assert ItemsCpus(items) == seq(|es|, i requires 0 <= i < |es| => EntryCpus(es[i]));
  }

  /** Printing any list of CPUs and ranges and parsing it again gives the CPUs, in order. */
  lemma ListRoundTrip(es: seq<Entry>)
    requires forall e :: e in es ==> Printable(e)
    ensures Cpus(Join(Printed(es))) == Meaning(es)
  {
    ItemsOfPrinted(es);
    CpusOfPrinted(es);
  }

  // ------------------------------------------------------------------ malformed lists

  /** A malformed item in any position empties the result; the one thing forgiven is a comma at the end. */
  lemma MalformedAnywhere(items: seq<string>, k: nat)
    requires forall item :: item in items ==> CommaFree(item)
    requires k < |items| && !WellFormedItem(items[k]) && items[|items| - 1] != ""
    ensures Cpus(Join(items)) == []
  {
    ItemsOfJoin(items);
    assert items[k] in Items(Join(items));
  }
}
