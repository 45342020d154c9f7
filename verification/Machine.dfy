/** Machine integers, the bytes they are made of, and the few arithmetic facts the other modules share. */
module Machine {
  const TWO_8: int := 0x100
  const TWO_16: int := 0x1_0000
  const TWO_32: int := 0x1_0000_0000
  const TWO_64: int := 0x1_0000_0000_0000_0000

  type U8 = x: int | 0 <= x < TWO_8
  type U16 = x: int | 0 <= x < TWO_16
  type U32 = x: int | 0 <= x < TWO_32
  type U64 = x: int | 0 <= x < TWO_64

  /** What is left of an integer in a 32-bit and in a 64-bit word. */
  function Wrap32(x: int): U32 { x % 0x1_0000_0000 }

  function Wrap64(x: int): U64 { x % 0x1_0000_0000_0000_0000 }

  datatype Option<+T> = None | Some(value: T)

  /** The unbounded product of a sequence; 1 when it is empty. */
  function Product(s: seq<nat>): (p: nat)
  {
    if s == [] then 1 else Product(s[..|s| - 1]) * s[|s| - 1]
  }

  lemma {:induction false} ProductZero(s: seq<nat>, k: nat)
    requires k < |s| && s[k] == 0
    ensures Product(s) == 0
  {
    if k < |s| - 1 {
      ProductZero(s[..|s| - 1], k);
    }
  }

  /** Reducing one factor first does not change a product's residue. */
  lemma MulMod64(a: nat, b: nat)
    ensures ((a % TWO_64) * b) % TWO_64 == (a * b) % TWO_64
  {
    var q, r := a / TWO_64, a % TWO_64;
    var qb, rb := q * b, r * b;
    assert a * b == TWO_64 * qb + rb by {
      assert a == TWO_64 * q + r;
      assert (TWO_64 * q + r) * b == TWO_64 * (q * b) + r * b;
    }
  }

  /** The low `n` bytes of `v`, least significant first. */
  function LittleEndian(v: nat, n: nat): (s: seq<U8>)
    ensures |s| == n
  {
    if n == 0 then [] else [v % TWO_8] + LittleEndian(v / TWO_8, n - 1)
  }

  function FromLittleEndian(s: seq<U8>): (v: nat)
  {
    if s == [] then 0 else s[0] + TWO_8 * FromLittleEndian(s[1..])
  }

  function Pow256(n: nat): (p: nat)
    ensures p > 0
  {
    if n == 0 then 1 else TWO_8 * Pow256(n - 1)
  }

  lemma {:induction false} FromLittleEndianBound(s: seq<U8>)
    ensures FromLittleEndian(s) < Pow256(|s|)
  {
    if s != [] {
      FromLittleEndianBound(s[1..]);
    }
  }

  lemma {:induction false} LittleEndianRoundTrip(v: nat, n: nat)
    requires v < Pow256(n)
    ensures FromLittleEndian(LittleEndian(v, n)) == v
  {
    if n > 0 {
      LittleEndianRoundTrip(v / TWO_8, n - 1);
      assert LittleEndian(v, n)[1..] == LittleEndian(v / TWO_8, n - 1);
    }
  }
}
