/** Fixed-width integer types and the option type shared by every module. */
module Common {

  type u8 = x: int | 0 <= x < 0x100
  type u16 = x: int | 0 <= x < 0x1_0000
  type u32 = x: int | 0 <= x < 0x1_0000_0000
  type u64 = x: int | 0 <= x < 0x1_0000_0000_0000_0000
  type i16 = x: int | -0x8000 <= x < 0x8000
  type i32 = x: int | -0x8000_0000 <= x < 0x8000_0000

  datatype Option<+T> = None | Some(value: T)

  /** Little-endian value of a byte sequence (the byte order of the hosts the agent runs on). */
  function LittleEndian(bytes: seq<u8>): (r: nat)
    ensures r < Pow256(|bytes|)
  {
    if bytes == [] then 0 else bytes[0] + 256 * LittleEndian(bytes[1..])
  }

  lemma LittleEndian2(b0: u8, b1: u8)
    ensures LittleEndian([b0, b1]) == b0 as int + 0x100 * b1 as int
  {
    assert [b0, b1][1..] == [b1];
    assert [b1][1..] == [];
  }

  lemma LittleEndian4(b0: u8, b1: u8, b2: u8, b3: u8)
    ensures LittleEndian([b0, b1, b2, b3])
         == b0 as int + 0x100 * b1 as int + 0x1_0000 * b2 as int + 0x100_0000 * b3 as int
  {
    assert [b0, b1, b2, b3][1..] == [b1, b2, b3];
    assert [b1, b2, b3][1..] == [b2, b3];
    LittleEndian2(b2, b3);
  }

  function Pow256(n: nat): (r: nat)
    ensures r >= 1
  {
    if n == 0 then 1 else 256 * Pow256(n - 1)
  }

  function Pow2(n: nat): (r: nat)
    ensures r >= 1
  {
    if n == 0 then 1 else 2 * Pow2(n - 1)
  }

  /** Bitwise or of two unsigned integers. */
  function BitOr(a: nat, b: nat): nat
  {
    if a == 0 then b
    else if b == 0 then a
    else 2 * BitOr(a / 2, b / 2) + (if a % 2 == 1 || b % 2 == 1 then 1 else 0)
  }

  /** Or-ing two numbers below 2^n stays below 2^n. */
  lemma {:induction false} BitOrBound(a: nat, b: nat, n: nat)
    requires a < Pow2(n) && b < Pow2(n)
    ensures BitOr(a, b) < Pow2(n)
  {
    if a != 0 && b != 0 {
      BitOrBound(a / 2, b / 2, n - 1);
    }
  }

  /**
   * Or-ing a multiple of 2^n with a number below 2^n is adding: the two do
   * not share a set bit.
   */
  lemma {:induction false} BitOrDisjoint(q: nat, b: nat, n: nat)
    requires b < Pow2(n)
    ensures BitOr(q * Pow2(n), b) == q * Pow2(n) + b
  {
    var a := q * Pow2(n);
    if a != 0 && b != 0 {
      var p := Pow2(n - 1);
      assert a == 2 * (q * p);
      BitOrDisjoint(q, b / 2, n - 1);
    }
  }

  lemma {:induction false} Pow2Add(m: nat, n: nat)
    ensures Pow2(m + n) == Pow2(m) * Pow2(n)
  {
    if m > 0 {
      Pow2Add(m - 1, n);
    }
  }

  lemma Pow2Values()
    ensures Pow2(4) == 0x10 && Pow2(8) == 0x100 && Pow2(16) == 0x1_0000 && Pow2(32) == 0x1_0000_0000
  {
    assert Pow2(2) == 4;
    Pow2Add(2, 2);
    Pow2Add(4, 4);
    Pow2Add(8, 8);
    Pow2Add(16, 16);
  }

  /** Bitwise and of two unsigned integers. */
  function BitAnd(a: nat, b: nat): nat
  {
    if a == 0 || b == 0 then 0
    else 2 * BitAnd(a / 2, b / 2) + (if a % 2 == 1 && b % 2 == 1 then 1 else 0)
  }

  lemma {:induction false} MulAtLeast(x: nat, m: nat)
    requires x >= 1
    ensures x * m >= m
  {
    if x > 1 {
      MulAtLeast(x - 1, m);
      assert x * m == (x - 1) * m + m;
    }
  }

  /** Euclidean division is unique: a quotient and a remainder in range are the ones `/` and `%` give. */
  lemma DivModUnique(a: int, m: int, q: int, r: int)
    requires m > 0 && 0 <= r < m && a == q * m + r
    ensures a / m == q && a % m == r
  {
    var q0 := a / m;
    var r0 := a % m;
    assert a == q0 * m + r0;
    assert (q - q0) * m == r0 - r;
    if q > q0 {
      MulAtLeast(q - q0, m);
    } else if q < q0 {
      MulAtLeast(q0 - q, m);
    }
  }

  /** Removing the lowest bit of `a` halves its remainder modulo an even number. */
  lemma ModHalf(a: nat, p: nat)
    requires p > 0
    ensures a % (2 * p) == 2 * ((a / 2) % p) + a % 2
  {
    var q := (a / 2) / p;
    var r := (a / 2) % p;
    assert a / 2 == q * p + r;
    assert q * (2 * p) == 2 * (q * p);
    DivModUnique(a, 2 * p, q, 2 * r + a % 2);
  }

  /** And-ing with `2^n - 1` keeps exactly the low `n` bits. */
  lemma {:induction false} BitAndLowBits(a: nat, n: nat)
    ensures BitAnd(a, Pow2(n) - 1) == a % Pow2(n)
  {
    if n > 0 && a > 0 {
      var p := Pow2(n - 1);
      var mask := Pow2(n) - 1;
      assert mask == 2 * (p - 1) + 1;
      assert mask / 2 == p - 1 && mask % 2 == 1;
      BitAndLowBits(a / 2, n - 1);
      assert BitAnd(a, mask) == 2 * ((a / 2) % p) + a % 2;
      ModHalf(a, p);
      assert Pow2(n) == 2 * p;
      assert a % Pow2(n) == a % (2 * p);
    } else if n == 0 {
      assert Pow2(n) == 1;
      assert a % Pow2(n) == 0;
    } else {
      assert BitAnd(a, Pow2(n) - 1) == 0;
      DivModUnique(0, Pow2(n), 0, 0);
    }
  }
}
