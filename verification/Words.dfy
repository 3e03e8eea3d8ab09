/** Machine words: fixed-width integers, wrapping arithmetic, casts, the bitwise
    operators the ring uses, and little-endian bytes. */
module Words {

  const TWO32: int := 0x1_0000_0000
  const TWO64: int := 0x1_0000_0000_0000_0000

  type byte = x: int | 0 <= x < 256
  type u8 = byte
  type u16 = x: int | 0 <= x < 0x1_0000
  type u32 = x: int | 0 <= x < 0x1_0000_0000
  type u64 = x: int | 0 <= x < 0x1_0000_0000_0000_0000
  type i32 = x: int | -0x8000_0000 <= x < 0x8000_0000

  // ----- wrapping and casting -----

  /** The u32 index that stands for an unbounded position. */
  function Wrap(n: int): u32 { n % TWO32 }

  function WrappingAdd(a: u32, b: u32): u32 { Wrap(a + b) }

  function WrappingSub(a: u32, b: u32): u32 { Wrap(a - b) }

  function SaturatingAdd(a: u64, b: u64): u64 { if a + b < TWO64 then a + b else TWO64 - 1 }

  /** `as i32` on an unsigned word: keep the low 32 bits, read them as two's complement. */
  function AsI32(n: nat): i32 {
    var w := n % TWO32;
    if w < 0x8000_0000 then w else w - TWO32
  }

  /** `as u32` on an i32. */
  function AsU32(n: i32): u32 { n % TWO32 }

  /** The two casts are inverse, and the signed one is the identity below 2^31. */
  lemma CastRoundTrip(n: i32)
    ensures AsI32(AsU32(n)) == n
  {
  }

  /** The signed cast keeps a count exactly when it is below 2^31 (for counts below 2^32). */
  lemma CastKeepsCount(n: nat)
    requires n < TWO32
    ensures AsI32(n) == n <==> n < 0x8000_0000
    ensures AsI32(n) < 0 <==> n >= 0x8000_0000
  {
  }

  /** Stepping an index by one follows stepping the position it stands for. */
  lemma WrapSucc(n: int)
    ensures WrappingAdd(Wrap(n), 1) == Wrap(n + 1)
  {
  }

  /** `tail.wrapping_sub(head)` is the distance of the positions, however often they wrapped. */
  lemma WrapDistance(a: int, b: int)
    requires 0 <= a - b < TWO32
    ensures WrappingSub(Wrap(a), Wrap(b)) == a - b
  {
  }

  // ----- bitwise operators, digit by digit -----

  function And(a: nat, b: nat): (r: nat)
    ensures r <= a && r <= b
  {
    if a == 0 || b == 0 then 0
    else 2 * And(a / 2, b / 2) + if a % 2 == 1 && b % 2 == 1 then 1 else 0
  }

  function Or(a: nat, b: nat): (r: nat)
    ensures a <= r && b <= r && r <= a + b
  {
    if a == 0 then b
    else if b == 0 then a
    else 2 * Or(a / 2, b / 2) + if a % 2 == 1 || b % 2 == 1 then 1 else 0
  }

  predicate IsPow2(n: nat) { n == 1 || (n > 1 && n % 2 == 0 && IsPow2(n / 2)) }

  /** Masking with `size - 1` is reduction modulo a power-of-two size. */
  lemma {:induction false} AndMask(x: nat, n: nat)
    requires IsPow2(n)
    ensures And(x, n - 1) == x % n
  {
    if n > 1 {
      var h := n / 2;
      AndMask(x / 2, h);
      assert (n - 1) / 2 == h - 1 && (n - 1) % 2 == 1;
      HalveMod(x, h);
    }
  }

  lemma HalveMod(x: nat, h: nat)
    requires h > 0
    ensures x % (2 * h) == 2 * ((x / 2) % h) + x % 2
  {
    var q, r := (x / 2) / h, (x / 2) % h;
    assert x == 2 * (x / 2) + x % 2;
    assert x / 2 == h * q + r;
    assert x == (2 * h) * q + (2 * r + x % 2) by {
      assert 2 * (h * q) == (2 * h) * q;
    }
    ModUnique(x, 2 * h, q, 2 * r + x % 2);
  }

  lemma ModUnique(x: int, n: int, q: int, r: int)
    requires 0 <= r < n && x == n * q + r
    ensures x % n == r
  {
    var d := x / n - q;
    assert n * d == r - x % n by {
      assert n * (x / n) + x % n == x;
      assert n * d == n * (x / n) - n * q;
    }
    assert d >= 1 ==> n * d >= n;
    assert d <= -1 ==> n * d <= -n;
  }

  // single bits as arithmetic

  lemma AndEven(a: nat, b: nat)
    ensures And(a, 2 * b) == 2 * And(a / 2, b)
  {
    var c := 2 * b;
    assert c % 2 == 0 && c / 2 == b;
    assert a != 0 && c != 0 ==> And(a, c) == 2 * And(a / 2, c / 2);
  }

  lemma AndOne(a: nat)
    ensures And(a, 1) == a % 2
  {
  }

  lemma AndFour(a: nat)
    ensures And(a, 4) == 4 * (a / 4 % 2)
  {
    hide And;
    AndEven(a, 2); AndEven(a / 2, 1); AndOne(a / 4);
  }

  lemma AndEight(a: nat)
    ensures And(a, 8) == 8 * (a / 8 % 2)
  {
    hide And;
    AndEven(a, 4); AndFour(a / 2);
  }

  lemma OrEven(a: nat, b: nat)
    ensures Or(a, 2 * b) == 2 * Or(a / 2, b) + a % 2
  {
    var c := 2 * b;
    assert c % 2 == 0 && c / 2 == b;
    if a == 0 { assert Or(0, b) == b; }
    else if b == 0 { assert Or(a / 2, 0) == a / 2; }
    else { assert Or(a, c) == 2 * Or(a / 2, c / 2) + if a % 2 == 1 || c % 2 == 1 then 1 else 0; }
  }

  lemma OrOne(a: nat)
    ensures Or(a, 1) == a + 1 - a % 2
  {
    if a != 0 { assert Or(a, 1) == 2 * Or(a / 2, 0) + 1 && Or(a / 2, 0) == a / 2; }
  }

  lemma OrEight(a: nat)
    ensures Or(a, 8) == a + 8 * (1 - a / 8 % 2)
  {
    hide Or;
    OrEven(a, 4); OrEven(a / 2, 2); OrEven(a / 4, 1); OrOne(a / 8);
  }

  /** A smaller power of two divides a larger one. */
  lemma {:induction false} Pow2Divides(n: nat, m: nat)
    requires IsPow2(n) && IsPow2(m) && n <= m
    ensures m % n == 0
  {
    if n > 1 {
      Pow2Divides(n / 2, m / 2);
      HalveMod(m, n / 2);
    }
  }

  lemma {:induction false} Pow2Product(a: nat, b: nat)
    requires IsPow2(a) && IsPow2(b)
    ensures IsPow2(a * b)
  {
    if a > 1 {
      Pow2Product(a / 2, b);
      assert a * b == 2 * (a / 2 * b);
    }
  }

  lemma TwoToThe32()
    ensures IsPow2(0x1_0000_0000)
  {
    assert IsPow2(0x100);
    Pow2Product(0x100, 0x100);
    Pow2Product(0x1_0000, 0x1_0000);
  }

  lemma {:induction false} OrBound(a: nat, b: nat, n: nat)
    requires IsPow2(n) && a < n && b < n
    ensures Or(a, b) < n
  {
    if a != 0 && b != 0 { OrBound(a / 2, b / 2, n / 2); }
  }

  /** `|` on two u32 words. */
  function Or32(a: u32, b: u32): u32 {
    TwoToThe32(); OrBound(a, b, TWO32);
    Or(a, b)
  }

  lemma ModOfMod(x: nat, n: nat, m: nat)
    requires n > 0 && m > 0 && m % n == 0
    ensures (x % m) % n == x % n
  {
    var c, k := m / n, x / m;
    assert m == n * c;
    assert x == n * (c * k) + x % m by {
      assert x == m * k + x % m;
      assert (n * c) * k == n * (c * k);
    }
    var y := x % m;
    assert x == n * (c * k + y / n) + y % n by {
      assert y == n * (y / n) + y % n;
      assert n * (c * k + y / n) == n * (c * k) + n * (y / n);
    }
    ModUnique(x, n, c * k + y / n, y % n);
  }

  /** The slot a wrapped index selects is the position modulo the ring size, past any
      number of wraps of the 32-bit index. */
  lemma SlotOfPosition(pos: nat, n: nat)
    requires IsPow2(n) && n <= 0x8000_0000
    ensures And(Wrap(pos), n - 1) == pos % n
  {
    AndMask(Wrap(pos), n);
    TwoToThe32();
    Pow2Divides(n, TWO32);
    ModOfMod(pos, n, TWO32);
  }

  /** Positions less than a ring apart occupy different slots. */
  lemma DistinctSlots(i: nat, j: nat, n: nat)
    requires i < j < i + n
    ensures i % n != j % n
  {
    var d := j / n - i / n;
    assert j - i == n * d + (j % n - i % n) by {
      assert i == n * (i / n) + i % n && j == n * (j / n) + j % n;
      assert n * d == n * (j / n) - n * (i / n);
    }
    assert d <= 0 ==> n * d <= 0;
    assert d >= 1 ==> n * d >= n;
  }

  // ----- least power of two -----

  /** `u32::next_power_of_two`, on requests whose answer exists. */
  function NextPow2(n: nat): (r: nat)
    ensures IsPow2(r) && n <= r && (n > 0 ==> r < 2 * n)
  {
    if n <= 1 then 1 else 2 * NextPow2((n + 1) / 2)
  }

  lemma {:induction false} NextPow2Least(n: nat, p: nat)
    requires IsPow2(p) && n <= p
    ensures NextPow2(n) <= p
  {
    if n > 1 { NextPow2Least((n + 1) / 2, p / 2); }
  }

  lemma {:induction false} Pow2Double(p: nat, q: nat)
    requires IsPow2(p) && IsPow2(q) && p < q
    ensures 2 * p <= q
  {
    if p > 1 { Pow2Double(p / 2, q / 2); }
  }

  // ----- little-endian bytes -----

  function Pow256(n: nat): (p: nat)
    ensures p > 0
  {
    if n == 0 then 1 else 256 * Pow256(n - 1)
  }

  /** `to_le_bytes` on an n-byte word. */
  function ToLe(v: nat, n: nat): (s: seq<byte>)
    ensures |s| == n
  {
    if n == 0 then [] else [v % 256] + ToLe(v / 256, n - 1)
  }

  /** `from_le_bytes`. */
  function FromLe(s: seq<byte>): nat {
    if s == [] then 0 else s[0] + 256 * FromLe(s[1..])
  }

  lemma {:induction false} LeRoundTrip(v: nat, n: nat)
    requires v < Pow256(n)
    ensures FromLe(ToLe(v, n)) == v
  {
    if n > 0 {
      assert v / 256 < Pow256(n - 1);
      LeRoundTrip(v / 256, n - 1);
      assert ToLe(v, n)[1..] == ToLe(v / 256, n - 1);
    }
  }

  lemma {:induction false} LeBound(s: seq<byte>)
    ensures FromLe(s) < Pow256(|s|)
  {
    if s != [] { LeBound(s[1..]); }
  }

  lemma {:induction false} LeInverse(s: seq<byte>)
    ensures ToLe(FromLe(s), |s|) == s
  {
    if s != [] {
      LeInverse(s[1..]);
      assert FromLe(s) % 256 == s[0] && FromLe(s) / 256 == FromLe(s[1..]);
    }
  }

  /** Four and eight bytes written out, the least significant first. */
  lemma LeFour(s: seq<byte>)
    requires |s| == 4
    ensures FromLe(s) == s[0] as int + 0x100 * (s[1] as int) + 0x1_0000 * (s[2] as int) + 0x100_0000 * (s[3] as int)
  {
    LeStep(s); LeStep(s[1..]); LeStep(s[2..]); LeStep(s[3..]);
    assert s[1..][1..] == s[2..] && s[2..][1..] == s[3..] && s[3..][1..] == [];
  }

  lemma LeEight(s: seq<byte>)
    requires |s| == 8
    ensures FromLe(s) == s[0] as int + 0x100 * (s[1] as int) + 0x1_0000 * (s[2] as int) + 0x100_0000 * (s[3] as int)
      + 0x1_0000_0000 * FromLe(s[4..])
  {
    LeStep(s); LeStep(s[1..]); LeStep(s[2..]); LeStep(s[3..]);
    assert s[1..][1..] == s[2..] && s[2..][1..] == s[3..] && s[3..][1..] == s[4..];
  }

  lemma LeStep(s: seq<byte>)
    requires s != []
    ensures FromLe(s) == s[0] as int + 256 * FromLe(s[1..])
  {
  }

  lemma WordSizes()
    ensures Pow256(4) == TWO32 && Pow256(8) == TWO64
  {
    assert Pow256(4) == TWO32;
  }
}
