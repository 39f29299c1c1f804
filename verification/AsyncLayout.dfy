/** The memory block of an asynchronous command: the command structure, the write buffer directly behind it and, behind
that, room for an authentication message; the whole is rounded up to units of 1024 or 4096 bytes.  Sizes are such that
nothing overflows 64 bits. */
module AsyncLayout {
  import opened Prelude

  const AUTH_MAX: nat := 158

  predicate UnitOk(unit: nat) { unit == 1024 || unit == 4096 }

  // ---------- rounding with a mask ----------

  lemma Split10(hi: bv54, lo: bv10)
    ensures ((hi as bv64 << 10) | (lo as bv64)) as nat == hi as nat * 1024 + lo as nat
  {
  }

  lemma Shift10(hi: bv54)
    ensures (hi as bv64 << 10) as nat == hi as nat * 1024
  {
  }

  lemma Parts10(x: bv64) returns (hi: bv54, lo: bv10)
    ensures x == (hi as bv64 << 10) | (lo as bv64) && x & 0xFFFF_FFFF_FFFF_FC00 == hi as bv64 << 10
  {
    hi, lo := (x >> 10) as bv54, (x & 1023) as bv10;
  }

  /** Masking off the low ten bits takes away the remainder modulo 1024. */
  lemma Mask1024(x: bv64)
    ensures (x & 0xFFFF_FFFF_FFFF_FC00) as nat == x as nat - x as nat % 1024
  {
    var q, r := WordParts10(x);
    Remainder1024(x as nat, q, r);
  }

  lemma WordParts10(x: bv64) returns (q: nat, r: nat)
    ensures x as nat == q * 1024 + r && r < 1024 && (x & 0xFFFF_FFFF_FFFF_FC00) as nat == q * 1024
  {
    var hi, lo := Parts10(x);
    Split10(hi, lo);
    Shift10(hi);
    Low10(lo);
    q, r := hi as nat, lo as nat;
  }

  lemma Remainder1024(x: nat, q: nat, r: nat)
    requires x == q * 1024 + r && r < 1024
    ensures x - x % 1024 == q * 1024
  {
  }

  lemma Low10(lo: bv10)
    ensures lo as nat < 1024
  {
  }

  lemma Split12(hi: bv52, lo: bv12)
    ensures ((hi as bv64 << 12) | (lo as bv64)) as nat == hi as nat * 4096 + lo as nat
  {
  }

  lemma Shift12(hi: bv52)
    ensures (hi as bv64 << 12) as nat == hi as nat * 4096
  {
  }

  lemma Parts12(x: bv64) returns (hi: bv52, lo: bv12)
    ensures x == (hi as bv64 << 12) | (lo as bv64) && x & 0xFFFF_FFFF_FFFF_F000 == hi as bv64 << 12
  {
    hi, lo := (x >> 12) as bv52, (x & 4095) as bv12;
  }

  lemma Low12(lo: bv12)
    ensures lo as nat < 4096
  {
  }

  lemma Mask4096(x: bv64)
    ensures (x & 0xFFFF_FFFF_FFFF_F000) as nat == x as nat - x as nat % 4096
  {
    var q, r := WordParts12(x);
    Remainder4096(x as nat, q, r);
  }

  lemma WordParts12(x: bv64) returns (q: nat, r: nat)
    ensures x as nat == q * 4096 + r && r < 4096 && (x & 0xFFFF_FFFF_FFFF_F000) as nat == q * 4096
  {
    var hi, lo := Parts12(x);
    Split12(hi, lo);
    Shift12(hi);
    Low12(lo);
    q, r := hi as nat, lo as nat;
  }

  lemma Remainder4096(x: nat, q: nat, r: nat)
    requires x == q * 4096 + r && r < 4096
    ensures x - x % 4096 == q * 4096
  {
  }

  /** `(n + unit - 1) & ~(unit - 1)` */
  method RoundUp(n: nat, unit: nat) returns (s: nat)
    requires UnitOk(unit) && n + unit <= 0x1_0000_0000_0000_0000
    ensures s == Round(n, unit)
  {
    var x := ToWord(n + unit - 1);
    if unit == 1024 {
      Mask1024(x);
      s := (x & 0xFFFF_FFFF_FFFF_FC00) as nat;
    } else {
      Mask4096(x);
      s := (x & 0xFFFF_FFFF_FFFF_F000) as nat;
    }
  }

  function Round(n: nat, unit: nat): nat
    requires UnitOk(unit)
  {
    var x := n + unit - 1;
    if unit == 1024 then x - x % 1024 else x - x % 4096
  }

  predicate MultipleOf(n: nat, unit: nat)
    requires UnitOk(unit)
  {
    if unit == 1024 then n % 1024 == 0 else n % 4096 == 0
  }

  /** Rounding gives the least multiple of the unit that is large enough. */
  lemma Least(n: nat, unit: nat)
    requires UnitOk(unit)
    ensures MultipleOf(Round(n, unit), unit) && n <= Round(n, unit) < n + unit
    ensures forall m: nat :: MultipleOf(m, unit) && n <= m ==> Round(n, unit) <= m
  {
    forall m: nat | MultipleOf(m, unit) && n <= m ensures Round(n, unit) <= m {
    }
  }

  // ---------- the block ----------

  /** Size of the block, offset of the write buffer and capacity left behind the write buffer. */
  datatype Layout = Layout(block: nat, buf: nat, readCapacity: nat)

  /** The sizes computed by the four command creators, for a structure of `header` bytes. */
  method CreateLayout(header: nat, size: nat, unit: nat) returns (r: Layout)
    requires UnitOk(unit) && header + size + AUTH_MAX + unit <= 0x1_0000_0000_0000_0000
    ensures MultipleOf(r.block, unit) && header + size + AUTH_MAX <= r.block
    ensures forall m: nat :: MultipleOf(m, unit) && header + size + AUTH_MAX <= m ==> r.block <= m
    ensures r.buf == header && r.buf + size + r.readCapacity == r.block
    ensures AUTH_MAX <= r.readCapacity < AUTH_MAX + unit
  {
    var s := RoundUp(header + size + AUTH_MAX, unit);
    Least(header + size + AUTH_MAX, unit);
    r := Layout(s, header, s - size - header);
  }
}
