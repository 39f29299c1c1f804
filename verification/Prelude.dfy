/** What several components share. */
module Prelude {

  datatype Option<+T> = None | Some(value: T)

  type byte = x: int | 0 <= x < 256

  /** Unsigned 32 bit arithmetic. */
  function Wrap(x: int): (r: nat)
    ensures r < 0x1_0000_0000
  {
    x % 0x1_0000_0000
  }

  lemma WrapAdd(x: int, y: int)
    ensures Wrap(Wrap(x) + y) == Wrap(x + y)
  {
  }

  lemma WrapSmall(x: nat)
    requires x < 0x1_0000_0000
    ensures Wrap(x) == x
  {
  }

  /** Joining words that have no bit in common is adding them. */
  lemma OrIsSum(a: bv64, b: bv64)
    requires a & b == 0
    ensures a | b == a + b
  {
  }

  // ---------- remainders ----------

  lemma ModUnique(x: nat, m: nat, a: nat, b: nat)
    requires m > 0 && x == m * a + b && b < m
    ensures x % m == b
  {
    var q, r := x / m, x % m;
    assert x == m * q + r;
    assert m * (q - a) == b - r;
    BetweenZero(m, q - a, b - r);
  }

  lemma BetweenZero(m: nat, d: int, e: int)
    requires m > 0 && m * d == e && 0 - m < e < m
    ensures d == 0 && e == 0
  {
  }

  // ---------- sharing out a number ----------

  /** Share i when n is spread over a number of parts as evenly as possible, the larger shares first. */
  function Share(n: nat, parts: nat, i: nat): nat
    requires parts > 0
  {
    n / parts + if i < n % parts then 1 else 0
  }

  /** The first k shares together. */
  function SumShares(n: nat, parts: nat, k: nat): nat
    requires parts > 0
  {
    if k == 0 then 0 else SumShares(n, parts, k - 1) + Share(n, parts, k - 1)
  }

  lemma Quotient(n: nat, parts: nat)
    requires parts > 0
    ensures n - n / parts * parts == n % parts && 0 <= n % parts < parts
  {
  }

  lemma {:induction false} SumSharesIs(n: nat, parts: nat, k: nat)
    requires parts > 0
    ensures SumShares(n, parts, k) == n / parts * k + if k <= n % parts then k else n % parts
  {
    if k > 0 {
      SumSharesIs(n, parts, k - 1);
      assert n / parts * k == n / parts * (k - 1) + n / parts;
    }
  }

  /** All shares add up to the number. */
  lemma SharesAddUp(n: nat, parts: nat)
    requires parts > 0
    ensures SumShares(n, parts, parts) == n
  {
    SumSharesIs(n, parts, parts);
    Quotient(n, parts);
  }

  /** The shares are even: the larger ones come first and are larger by one. */
  lemma SharesEven(n: nat, parts: nat, i: nat, j: nat)
    requires parts > 0 && i <= j
    ensures Share(n, parts, j) <= Share(n, parts, i) <= Share(n, parts, j) + 1
  {
  }

  lemma LessThanOne(d: int, n: nat)
    requires d * n < n
    ensures d < 1
  {
  }

  /** A larger number has no smaller share. */
  lemma ShareMonotone(m: nat, n: nat, parts: nat, i: nat)
    requires parts > 0 && m <= n
    ensures Share(m, parts, i) <= Share(n, parts, i)
  {
    var p, q := m / parts, n / parts;
    Quotient(m, parts);
    Quotient(n, parts);
    assert (p - q) * parts == p * parts - q * parts < parts;
    LessThanOne(p - q, parts);
    if p == q { assert p * parts == q * parts; }
  }

  // ---------- numbers as 64 bit words ----------

  method Bit(n: nat) returns (b: bv1)
    requires n < 2
    ensures b as nat == n
  {
    b := if n == 1 then 1 else 0;
  }

  lemma OctetNat(b7: bv1, b6: bv1, b5: bv1, b4: bv1, b3: bv1, b2: bv1, b1: bv1, b0: bv1)
    ensures ((b7 as bv8 << 7) | (b6 as bv8 << 6) | (b5 as bv8 << 5) | (b4 as bv8 << 4)
             | (b3 as bv8 << 3) | (b2 as bv8 << 2) | (b1 as bv8 << 1) | (b0 as bv8)) as nat
            == b7 as nat * 128 + b6 as nat * 64 + b5 as nat * 32 + b4 as nat * 16
               + b3 as nat * 8 + b2 as nat * 4 + b1 as nat * 2 + b0 as nat
  {
  }

  method Octet(n: nat) returns (b: bv8)
    requires n < 256
    ensures b as nat == n
  {
    var n1 := n / 2;
    var n2 := n1 / 2;
    var n3 := n2 / 2;
    var n4 := n3 / 2;
    var n5 := n4 / 2;
    var n6 := n5 / 2;
    var n7 := n6 / 2;
    var b7 := Bit(n7);
    var b6 := Bit(n6 % 2);
    var b5 := Bit(n5 % 2);
    var b4 := Bit(n4 % 2);
    var b3 := Bit(n3 % 2);
    var b2 := Bit(n2 % 2);
    var b1 := Bit(n1 % 2);
    var b0 := Bit(n % 2);
    b := JoinBits(b7, b6, b5, b4, b3, b2, b1, b0);
  }

  method JoinBits(b7: bv1, b6: bv1, b5: bv1, b4: bv1, b3: bv1, b2: bv1, b1: bv1, b0: bv1) returns (b: bv8)
    ensures b as nat == b7 as nat * 128 + b6 as nat * 64 + b5 as nat * 32 + b4 as nat * 16
                        + b3 as nat * 8 + b2 as nat * 4 + b1 as nat * 2 + b0 as nat
  {
    OctetNat(b7, b6, b5, b4, b3, b2, b1, b0);
    b := (b7 as bv8 << 7) | (b6 as bv8 << 6) | (b5 as bv8 << 5) | (b4 as bv8 << 4)
         | (b3 as bv8 << 3) | (b2 as bv8 << 2) | (b1 as bv8 << 1) | (b0 as bv8);
  }

  /** The value of eight bytes, most significant first. */
  function Octets(b7: bv8, b6: bv8, b5: bv8, b4: bv8, b3: bv8, b2: bv8, b1: bv8, b0: bv8): nat
  {
    b7 as nat * 0x100_0000_0000_0000 + b6 as nat * 0x1_0000_0000_0000 + b5 as nat * 0x100_0000_0000
    + b4 as nat * 0x1_0000_0000 + b3 as nat * 0x100_0000 + b2 as nat * 0x1_0000 + b1 as nat * 0x100 + b0 as nat
  }

  lemma JoinNat(b7: bv8, b6: bv8, b5: bv8, b4: bv8, b3: bv8, b2: bv8, b1: bv8, b0: bv8)
    ensures ((b7 as bv64 << 56) | (b6 as bv64 << 48) | (b5 as bv64 << 40) | (b4 as bv64 << 32)
             | (b3 as bv64 << 24) | (b2 as bv64 << 16) | (b1 as bv64 << 8) | (b0 as bv64)) as nat
            == b7 as nat * 0x100_0000_0000_0000 + b6 as nat * 0x1_0000_0000_0000 + b5 as nat * 0x100_0000_0000
               + b4 as nat * 0x1_0000_0000 + b3 as nat * 0x100_0000 + b2 as nat * 0x1_0000
               + b1 as nat * 0x100 + b0 as nat
  {
  }

  method Join(b7: bv8, b6: bv8, b5: bv8, b4: bv8, b3: bv8, b2: bv8, b1: bv8, b0: bv8) returns (x: bv64)
    ensures x as nat == Octets(b7, b6, b5, b4, b3, b2, b1, b0)
  {
    JoinNat(b7, b6, b5, b4, b3, b2, b1, b0);
    x := (b7 as bv64 << 56) | (b6 as bv64 << 48) | (b5 as bv64 << 40) | (b4 as bv64 << 32)
         | (b3 as bv64 << 24) | (b2 as bv64 << 16) | (b1 as bv64 << 8) | (b0 as bv64);
  }

  lemma OctetsIs(n: nat, b7: bv8, b6: bv8, b5: bv8, b4: bv8, b3: bv8, b2: bv8, b1: bv8, b0: bv8)
    requires b0 as nat == n % 256 && b1 as nat == n / 256 % 256 && b2 as nat == n / 256 / 256 % 256
    requires b3 as nat == n / 256 / 256 / 256 % 256 && b4 as nat == n / 256 / 256 / 256 / 256 % 256
    requires b5 as nat == n / 256 / 256 / 256 / 256 / 256 % 256
    requires b6 as nat == n / 256 / 256 / 256 / 256 / 256 / 256 % 256
    requires b7 as nat == n / 256 / 256 / 256 / 256 / 256 / 256 / 256
    ensures Octets(b7, b6, b5, b4, b3, b2, b1, b0) == n
  {
    var n1 := n / 256;
    var n2 := n1 / 256;
    var n3 := n2 / 256;
    var n4 := n3 / 256;
    var n5 := n4 / 256;
    var n6 := n5 / 256;
    assert n6 == 256 * b7 as nat + b6 as nat;
    assert n5 == 256 * n6 + b5 as nat;
    assert n4 == 256 * n5 + b4 as nat;
    assert n3 == 256 * n4 + b3 as nat;
    assert n2 == 256 * n3 + b2 as nat;
    assert n1 == 256 * n2 + b1 as nat;
  }

  /** The machine word of a number. */
  method ToWord(n: nat) returns (x: bv64)
    requires n < 0x1_0000_0000_0000_0000
    ensures x as nat == n
  {
    hide Octets;
    var b0 := Octet(n % 256);
    var b1 := Octet(n / 256 % 256);
    var b2 := Octet(n / 256 / 256 % 256);
    var b3 := Octet(n / 256 / 256 / 256 % 256);
    var b4 := Octet(n / 256 / 256 / 256 / 256 % 256);
    var b5 := Octet(n / 256 / 256 / 256 / 256 / 256 % 256);
    var b6 := Octet(n / 256 / 256 / 256 / 256 / 256 / 256 % 256);
    var b7 := Octet(n / 256 / 256 / 256 / 256 / 256 / 256 / 256);
    OctetsIs(n, b7, b6, b5, b4, b3, b2, b1, b0);
    x := Join(b7, b6, b5, b4, b3, b2, b1, b0);
  }
}
