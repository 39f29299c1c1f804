/** The bitmap of configuration fields that a dynamic configuration file has set. */
module ConfigBits {

  const BITMAP_SIZE: nat := 12

  function Bit(i: nat): bv8
    requires i < 8
  {
    if i == 0 then 1 else if i == 1 then 2 else if i == 2 then 4 else if i == 3 then 8
    else if i == 4 then 16 else if i == 5 then 32 else if i == 6 then 64 else 128
  }

  /** The bits of a byte, from the lowest. */
  lemma BitIs(i: nat)
    requires i < 8
    ensures Bit(i) == 1 << i
  {
    assert i == 0 || i == 1 || i == 2 || i == 3 || i == 4 || i == 5 || i == 6 || i == 7;
  }

  function IsSetIn(bytes: seq<bv8>, offset: nat): bool
    requires offset < 8 * |bytes|
  {
    bytes[offset / 8] & Bit(offset % 8) != 0
  }

  lemma BitsApart(i: nat, j: nat)
    requires i < 8 && j < 8
    ensures Bit(i) != 0 && (i != j ==> Bit(i) & Bit(j) == 0)
  {
  }

  lemma SetOne(b: bv8, m: bv8)
    requires m != 0
    ensures (b | m) & m != 0
  {
    assert (b | m) & m == m;
  }

  lemma SetOther(b: bv8, m: bv8, k: bv8)
    requires m & k == 0
    ensures (b | m) & k == b & k
  {
  }

  lemma OrBit(b: bv8, i: nat, j: nat)
    requires i < 8 && j < 8
    ensures (b | Bit(i)) & Bit(j) != 0 <==> i == j || b & Bit(j) != 0
  {
    BitsApart(i, j);
    hide Bit;
    if i == j { SetOne(b, Bit(i)); } else { SetOther(b, Bit(i), Bit(j)); }
  }

  function WithBit(bytes: seq<bv8>, offset: nat): seq<bv8>
    requires offset < 8 * |bytes|
  {
    bytes[offset / 8 := bytes[offset / 8] | Bit(offset % 8)]
  }

  /** The byte at an eighth of the offset gets the bit whose number is the remainder. */
  lemma WithBitAt(bytes: seq<bv8>, offset: nat, j: nat)
    requires offset < 8 * |bytes| && j < |bytes|
    ensures |WithBit(bytes, offset)| == |bytes|
    ensures WithBit(bytes, offset)[j] == if j == offset / 8 then bytes[j] | (1 << (offset % 8)) else bytes[j]
  {
    BitIs(offset % 8);
    hide Bit;
  }

  /** Setting a bit changes that field and no other. */
  lemma OneBit(bytes: seq<bv8>, offset: nat, o: nat)
    requires offset < 8 * |bytes| && o < 8 * |bytes|
    ensures IsSetIn(WithBit(bytes, offset), o) <==> IsSetIn(bytes, o) || o == offset
  {
    hide Bit;
    SamePlace(o, offset);
    OneBitAt(bytes, offset / 8, offset % 8, o / 8, o % 8);
  }

  lemma SamePlace(o: nat, p: nat)
    ensures o == p <==> o / 8 == p / 8 && o % 8 == p % 8
  {
  }

  lemma OneBitAt(bytes: seq<bv8>, p: nat, i: nat, q: nat, j: nat)
    requires p < |bytes| && q < |bytes| && i < 8 && j < 8
    ensures bytes[p := bytes[p] | Bit(i)][q] & Bit(j) != 0 <==> bytes[q] & Bit(j) != 0 || (p == q && i == j)
  {
    hide Bit;
    if p == q { OrBit(bytes[p], i, j); }
  }

  class Bitmap {
    const bytes: array<bv8>

    ghost predicate Valid() { bytes.Length == BITMAP_SIZE }

    ghost predicate Marked(o: nat)
      requires Valid() && o < 96
      reads bytes
    {
      IsSetIn(bytes[..], o)
    }

    constructor ()
      ensures Valid() && fresh(bytes) && forall o: nat :: o < 96 ==> !Marked(o)
    {
      bytes := new bv8[BITMAP_SIZE](_ => 0);
    }

    /** `as_field_set` */
    method Set(offset: nat)
      requires Valid() && offset < 96
      modifies bytes
      ensures Valid() && forall o: nat :: o < 96 ==> (Marked(o) <==> old(Marked(o)) || o == offset)
      ensures bytes[..] == WithBit(old(bytes[..]), offset)
    {
      hide Bit, IsSetIn;
      ghost var before := bytes[..];
      bytes[offset / 8] := bytes[offset / 8] | Bit(offset % 8);
      assert bytes[..] == WithBit(before, offset);
      forall o: nat | o < 96 ensures Marked(o) <==> old(Marked(o)) || o == offset { OneBit(before, offset, o); }
    }

    /** `as_field_is_set` */
    method IsSet(offset: nat) returns (r: bool)
      requires Valid() && offset < 96
      ensures r == Marked(offset)
    {
      r := bytes[offset / 8] & Bit(offset % 8) != 0;
    }

    /** After any sequence of marks a field is set exactly if it is among them. */
    method SetAll(offsets: seq<nat>)
      requires Valid() && forall i :: 0 <= i < |offsets| ==> offsets[i] < 96
      requires forall o: nat :: o < 96 ==> !Marked(o)
      modifies bytes
      ensures Valid() && forall o: nat :: o < 96 ==> (Marked(o) <==> o in offsets)
    {
      hide IsSetIn;
      for i := 0 to |offsets|
        invariant Valid() && forall o: nat :: o < 96 ==> (Marked(o) <==> o in offsets[..i])
      {
        Set(offsets[i]);
        assert offsets[..i + 1] == offsets[..i] + [offsets[i]];
      }
      assert offsets[..|offsets|] == offsets;
    }
  }

  // ---------- field offsets ----------

  const SCALARS: nat := 52
  const BATCH_FIELDS: nat := 11

  /** Base of each batch block: parent read, parent write, transaction verify, transaction roll. */
  const BASES: seq<nat> := [52, 63, 74, 85]

  /** A batch field of one block is neither a field of another block nor a scalar field, and lies in the bitmap. */
  lemma BlocksApart(b: nat, c: nat, f: nat, g: nat)
    requires b < 4 && c < 4 && f < BATCH_FIELDS && g < BATCH_FIELDS
    ensures SCALARS <= BASES[b] + f < 8 * BITMAP_SIZE
    ensures BASES[b] + f == BASES[c] + g <==> b == c && f == g
  {
    assert BASES[b] == 52 + 11 * b && BASES[c] == 52 + 11 * c;
  }
}
