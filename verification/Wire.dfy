/** The byte layout of command fields and frames, as values: numbers in both byte orders, fields, and the header that
frames a command. */
module Wire {
  import opened Prelude

  // ---------- numbers ----------

  /** The k low bytes of v, most significant first. */
  function ToBe(v: nat, k: nat): (s: seq<byte>)
    ensures |s| == k
  {
    if k == 0 then [] else ToBe(v / 256, k - 1) + [(v % 256) as byte]
  }

  /** The k low bytes of v, least significant first. */
  function ToLe(v: nat, k: nat): (s: seq<byte>)
    ensures |s| == k
  {
    if k == 0 then [] else [(v % 256) as byte] + ToLe(v / 256, k - 1)
  }

  function FromBe(s: seq<byte>): nat
  {
    if s == [] then 0 else FromBe(s[..|s| - 1]) * 256 + s[|s| - 1]
  }

  function FromLe(s: seq<byte>): nat
  {
    if s == [] then 0 else s[0] + 256 * FromLe(s[1..])
  }

  function Pow256(k: nat): (p: nat)
    ensures p > 0
  {
    if k == 0 then 1 else 256 * Pow256(k - 1)
  }

  lemma SplitByte(v: nat, p: nat)
    requires p > 0
    ensures (v / 256) % p * 256 + v % 256 == v % (256 * p)
  {
    var q := v / 256;
    var a, b := q / p, q % p;
    assert v == 256 * (p * a + b) + v % 256;
    assert 256 * (p * a) == (256 * p) * a;
    ModUnique(v, 256 * p, a, 256 * b + v % 256);
  }

  /** Reading back k bytes gives the number modulo 256^k, in either byte order. */
  lemma {:induction false} BeRoundTrip(v: nat, k: nat)
    ensures FromBe(ToBe(v, k)) == v % Pow256(k)
  {
    if k > 0 {
      BeRoundTrip(v / 256, k - 1);
      SplitByte(v, Pow256(k - 1));
      assert ToBe(v, k)[..k - 1] == ToBe(v / 256, k - 1);
    }
  }

  lemma {:induction false} LeRoundTrip(v: nat, k: nat)
    ensures FromLe(ToLe(v, k)) == v % Pow256(k)
  {
    if k > 0 {
      LeRoundTrip(v / 256, k - 1);
      SplitByte(v, Pow256(k - 1));
      assert ToLe(v, k)[1..] == ToLe(v / 256, k - 1);
    }
  }

  lemma Powers()
    ensures Pow256(4) == 0x1_0000_0000 && Pow256(6) == 0x1_0000_0000_0000 && Pow256(7) == 0x100_0000_0000_0000
    ensures Pow256(8) == 0x1_0000_0000_0000_0000
  {
    assert Pow256(1) == 256 && Pow256(2) == 0x1_0000 && Pow256(3) == 0x100_0000 && Pow256(5) == 0x100_0000_0000;
  }

  // ---------- fields ----------

  /** A field with its value: a string, a number of 4 or 8 bytes in either byte order, a buffer or digest, or a
      record version. */
  datatype Field =
    | Str(id: byte, val: seq<byte>)
    | Num(id: byte, v: nat, width: nat, big: bool)
    | Raw(id: byte, data: seq<byte>)
    | Version(v: nat)

  const RECORD_VERSION: byte := 3

  function Id(f: Field): byte { if f.Version? then RECORD_VERSION else f.id }

  function Payload(f: Field): seq<byte>
  {
    match f
    case Str(_, val) => val
    case Num(_, v, width, big) => if big then ToBe(v, width) else ToLe(v, width)
    case Raw(_, data) => data
    case Version(v) => ToLe(v, 7)
  }

  /** Length of id and payload in four bytes, the id, the payload. */
  function Encode(f: Field): seq<byte> { ToBe(|Payload(f)| + 1, 4) + [Id(f)] + Payload(f) }

  function EncodeAll(fs: seq<Field>): seq<byte>
  {
    if fs == [] then [] else Encode(fs[0]) + EncodeAll(fs[1..])
  }

  /** `as_command_string_field_size` and `as_command_field_size`. */
  function Size(f: Field): nat { |Payload(f)| + 5 }

  function SizeAll(fs: seq<Field>): nat
  {
    if fs == [] then 0 else Size(fs[0]) + SizeAll(fs[1..])
  }

  /** The size functions are exact. */
  lemma {:induction false} SizeExact(fs: seq<Field>)
    ensures |EncodeAll(fs)| == SizeAll(fs)
  {
    if fs != [] { SizeExact(fs[1..]); }
  }

  /** What the length header can express. */
  predicate Fits(f: Field) { |Payload(f)| < 0xFFFF_FFFF }

  /** A reader of the field layout: ids and payloads, or nothing if the bytes end early. */
  function ReadAll(s: seq<byte>): (r: Option<seq<(byte, seq<byte>)>>)
    decreases |s|
  {
    if s == [] then Some([])
    else if |s| < 5 then None
    else
      var n := FromBe(s[..4]);
      if n == 0 || |s| < 4 + n then None
      else
        var rest := ReadAll(s[4 + n..]);
        if rest.None? then None else Some([(s[4], s[5..4 + n])] + rest.value)
  }

  function Contents(fs: seq<Field>): seq<(byte, seq<byte>)>
  {
    if fs == [] then [] else [(Id(fs[0]), Payload(fs[0]))] + Contents(fs[1..])
  }

  lemma LengthHeader(f: Field)
    requires Fits(f)
    ensures FromBe(ToBe(|Payload(f)| + 1, 4)) == |Payload(f)| + 1
  {
    BeRoundTrip(|Payload(f)| + 1, 4);
    Powers();
  }

  lemma EncodeParts(f: Field, rest: seq<byte>)
    ensures var s := Encode(f) + rest; var n := |Payload(f)| + 1;
            s[..4] == ToBe(n, 4) && s[4] == Id(f) && s[5..4 + n] == Payload(f) && s[4 + n..] == rest
  {
  }

  /** What a reader must find in a field: a string or buffer itself, and a number, in its byte order, modulo what its
      width can hold. */
  predicate Carries(f: Field, id: byte, payload: seq<byte>)
  {
    match f
    case Str(i, val) => id == i && payload == val
    case Raw(i, data) => id == i && payload == data
    case Num(i, v, width, big) =>
      id == i && |payload| == width && (if big then FromBe(payload) else FromLe(payload)) == v % Pow256(width)
    case Version(v) => id == 3 && |payload| == 7 && FromLe(payload) == v % Pow256(7)
  }

  lemma FieldCarries(f: Field)
    ensures Carries(f, Id(f), Payload(f))
  {
    hide ToBe, ToLe, FromBe, FromLe, Pow256;
    match f {
      case Num(_, v, width, big) => if big { BeRoundTrip(v, width); } else { LeRoundTrip(v, width); }
      case Version(v) => LeRoundTrip(v, 7);
      case _ =>
    }
  }

  lemma {:induction false} ContentsCarry(fs: seq<Field>)
    ensures |Contents(fs)| == |fs|
    ensures forall i :: 0 <= i < |fs| ==> Carries(fs[i], Contents(fs)[i].0, Contents(fs)[i].1)
  {
    hide Carries, Payload;
    if fs != [] {
      ContentsCarry(fs[1..]);
      FieldCarries(fs[0]);
    }
  }

  /** Fields written back to back are recovered, in order, with ids and payloads. */
  lemma {:induction false} FieldsRoundTrip(fs: seq<Field>)
    requires forall i :: 0 <= i < |fs| ==> Fits(fs[i])
    ensures var r := ReadAll(EncodeAll(fs));
            && r == Some(Contents(fs)) && |r.value| == |fs|
            && forall i :: 0 <= i < |fs| ==> Carries(fs[i], r.value[i].0, r.value[i].1)
  {
    ContentsCarry(fs);
    hide Carries;
    if fs != [] {
      FieldsRoundTrip(fs[1..]);
      LengthHeader(fs[0]);
      EncodeParts(fs[0], EncodeAll(fs[1..]));
    }
  }

  /** A number field is recovered from its payload exactly if it fits its width; a version exactly below 2^56. */
  lemma NumberRecovered(f: Field)
    requires f.Num? || f.Version?
    ensures f.Num? ==>
              ((if f.big then FromBe(Payload(f)) else FromLe(Payload(f))) == f.v <==> f.v < Pow256(f.width))
    ensures f.Version? ==> (FromLe(Payload(f)) == f.v <==> f.v < 0x100_0000_0000_0000)
  {
    Powers();
    hide Pow256, ToBe, ToLe, FromBe, FromLe;
    if f.Version? {
      LeRoundTrip(f.v, 7);
    } else if f.big {
      BeRoundTrip(f.v, f.width);
      SmallMod(f.v, Pow256(f.width));
    } else {
      LeRoundTrip(f.v, f.width);
      SmallMod(f.v, Pow256(f.width));
    }
  }

  lemma SmallMod(v: nat, m: nat)
    requires m > 0
    ensures v % m == v <==> v < m
  {
    if v < m { ModUnique(v, m, 0, v); }
  }

  // ---------- frames ----------

  const PROTO_VERSION: nat := 2
  const MESSAGE_TYPE: nat := 3
  const COMPRESSED_TYPE: nat := 4

  /** The header word as the source computes it. */
  function HeaderBits(len: bv64, kind: bv64): bv64 { len | (2 << 56) | (kind << 48) }

  /** Below 2^48 the three parts do not touch: each can be cut out again. */
  lemma HeaderBitsDisjoint(len: bv64, kind: bv64)
    requires len < 0x1_0000_0000_0000 && kind < 256
    ensures var h := HeaderBits(len, kind); h >> 56 == 2 && (h >> 48) & 0xFF == kind && h & 0xFFFF_FFFF_FFFF == len
  {
  }

  /** So joining them is adding them. */
  lemma HeaderBitsSum(len: bv64, kind: bv64)
    requires len < 0x1_0000_0000_0000 && kind < 256
    ensures HeaderBits(len, kind) == len + (kind << 48) + (2 << 56)
  {
    var a := kind << 48;
    KindAbove(len, kind);
    OrIsSum(len, a);
    OrIsSum(len | a, 2 << 56);
    Reorder(len, 2 << 56, a);
  }

  lemma KindAbove(len: bv64, kind: bv64)
    requires len < 0x1_0000_0000_0000 && kind < 256
    ensures len & (kind << 48) == 0 && (len | (kind << 48)) & (2 << 56) == 0
  {
  }

  lemma Reorder(a: bv64, b: bv64, c: bv64)
    ensures a | b | c == (a | c) | b
  {
  }

  /** From 2^48 on the high bits of a length are mixed into type and version. */
  lemma HeaderBitsSpill(len: bv64, kind: bv64)
    requires kind < 256
    ensures var h := HeaderBits(len, kind);
            (h >> 48) & 0xFF == kind | ((len >> 48) & 0xFF) && h >> 56 == 2 | (len >> 56)
    ensures HeaderBits(len, kind) & 0xFFFF_FFFF_FFFF == len <==> len < 0x1_0000_0000_0000
  {
  }

  /** The same word as a number, for lengths below 2^48. */
  function HeaderWord(len: nat, kind: nat): nat
  {
    len + kind * 0x1_0000_0000_0000 + PROTO_VERSION * 0x100_0000_0000_0000
  }

  lemma HeaderBitsWord(len: bv64, kind: bv64)
    requires len < 0x1_0000_0000_0000 && kind < 256
    ensures HeaderBits(len, kind) as nat == HeaderWord(len as nat, kind as nat)
  {
    HeaderBitsSum(len, kind);
  }

  /** The eight bytes of the header word. */
  function Header(len: bv64, kind: bv64): (s: seq<byte>)
    ensures |s| == 8
  {
    ToBe(HeaderBits(len, kind) as nat, 8)
  }

  /** What a receiver takes from a header: version, type, and the length in the last six bytes. */
  function ReadHeader(s: seq<byte>): (r: (nat, nat, nat))
    requires |s| == 8
  {
    (s[0], s[1], FromBe(s[2..]))
  }

  lemma {:induction false} BeLow(v: nat, k: nat, j: nat)
    requires j <= k
    ensures ToBe(v, k)[k - j..] == ToBe(v, j)
  {
    if j > 0 {
      BeLow(v / 256, k - 1, j - 1);
      assert ToBe(v, k)[k - j..] == ToBe(v / 256, k - 1)[k - j..] + [(v % 256) as byte];
    } else {
      assert ToBe(v, k)[k..] == [];
    }
  }

  /** Byte i of a number in either byte order. */
  lemma {:induction false} BeTop(v: nat, k: nat, i: nat)
    requires i < k
    ensures ToBe(v, k)[i] == v / Pow256(k - 1 - i) % 256
  {
    if i < k - 1 {
      BeTop(v / 256, k - 1, i);
      DivDiv(v, Pow256(k - 2 - i));
    }
  }

  lemma {:induction false} LeAt(v: nat, k: nat, i: nat)
    requires i < k
    ensures ToLe(v, k)[i] == v / Pow256(i) % 256
  {
    if i > 0 {
      LeAt(v / 256, k - 1, i - 1);
      DivDiv(v, Pow256(i - 1));
    }
  }

  lemma DivDiv(v: nat, p: nat)
    requires p > 0
    ensures v / 256 / p == v / (256 * p)
  {
    var q := v / 256;
    var a, b := q / p, q % p;
    assert v == 256 * (p * a + b) + v % 256;
    assert 256 * (p * a) == (256 * p) * a;
    ModUnique(v, 256 * p, a, 256 * b + v % 256);
    assert (256 * p) * (v / (256 * p)) == (256 * p) * a;
    SameFactor(256 * p, v / (256 * p), a);
  }

  lemma SameFactor(m: nat, a: nat, b: nat)
    requires m > 0 && m * a == m * b
    ensures a == b
  {
    assert m * (a - b) == 0;
    BetweenZero(m, a - b, 0);
  }

  lemma {:induction false} FromBeBound(s: seq<byte>)
    ensures FromBe(s) < Pow256(|s|)
  {
    if s != [] { FromBeBound(s[..|s| - 1]); }
  }

  lemma WordBelow(len: bv64)
    requires len as nat < 0x1_0000_0000_0000
    ensures len < 0x1_0000_0000_0000
  {
  }

  /** A receiver finds version, type and length again exactly if the length is below 2^48. */
  lemma FrameRoundTrip(len: bv64, kind: bv64)
    requires kind < 256
    ensures ReadHeader(Header(len, kind)) == (PROTO_VERSION, kind as nat, len as nat)
            <==> len as nat < 0x1_0000_0000_0000
  {
    if len as nat < 0x1_0000_0000_0000 {
      WordBelow(len);
      HeaderBitsWord(len, kind);
      KindBelow(kind);
      hide HeaderBits, HeaderWord;
      WordRoundTrip(len as nat, kind as nat);
    } else {
      hide HeaderBits, ToBe;
      FromBeBound(Header(len, kind)[2..]);
      Powers();
    }
  }

  lemma KindBelow(kind: bv64)
    requires kind < 256
    ensures kind as nat < 256
  {
  }

  lemma WordRoundTrip(len: nat, kind: nat)
    requires len < 0x1_0000_0000_0000 && kind < 256
    ensures ReadHeader(ToBe(HeaderWord(len, kind), 8)) == (PROTO_VERSION, kind, len)
  {
    var w := HeaderWord(len, kind);
    HeaderDigits(len, kind);
    Powers();
    hide HeaderWord, ToBe, FromBe, Pow256;
    BeTop(w, 8, 0);
    BeTop(w, 8, 1);
    BeLow(w, 8, 6);
    BeRoundTrip(w, 6);
  }

  lemma HeaderDigits(len: nat, kind: nat)
    requires len < 0x1_0000_0000_0000 && kind < 256
    ensures var w := HeaderWord(len, kind);
            w / 0x100_0000_0000_0000 % 256 == 2 && w / 0x1_0000_0000_0000 % 256 == kind && w % 0x1_0000_0000_0000 == len
  {
    var w := HeaderWord(len, kind);
    assert w / 0x1_0000_0000_0000 == kind + 512;
  }

  const PROTO_SIZE_MAX: nat := 0x800_0000

  /** `as_proto_parse`: the version is checked, then the length. */
  function ParseProto(s: seq<byte>): (r: Option<(nat, nat)>)
    requires |s| == 8
  {
    var (version, kind, len) := ReadHeader(s);
    if version != PROTO_VERSION || len > PROTO_SIZE_MAX then None else Some((kind, len))
  }

  /** Any eight bytes are accepted exactly if they start with version 2 and announce at most 128 MiB; type and length
      are then those of the header. */
  lemma ParseProtoIff(s: seq<byte>)
    requires |s| == 8
    ensures ParseProto(s).Some? <==> s[0] == 2 && FromBe(s[2..]) <= 0x800_0000
    ensures ParseProto(s).Some? ==> ParseProto(s).value == (s[1], FromBe(s[2..]))
  {
  }

  /** A written frame is accepted, with its type and length, exactly if its body is at most 128 MiB. */
  lemma FrameAccepted(len: bv64, kind: bv64)
    requires len as nat < 0x1_0000_0000_0000 && kind < 256
    ensures ParseProto(Header(len, kind))
            == if len as nat <= PROTO_SIZE_MAX then Some((kind as nat, len as nat)) else None
  {
    hide Header, ReadHeader;
    FrameRoundTrip(len, kind);
  }

  /** `as_compressed_size_parse` on the eight bytes after the header. */
  function CompressedSize(s: seq<byte>): (r: Option<nat>)
    requires |s| == 8
  {
    var n := FromBe(s);
    if n > PROTO_SIZE_MAX then None else Some(n)
  }

  /** The uncompressed size written by a compressed frame is read back exactly if it is at most 128 MiB, and refused
      otherwise. */
  lemma CompressedSizeRoundTrip(n: nat)
    requires n < 0x1_0000_0000_0000_0000
    ensures CompressedSize(ToBe(n, 8)) == if n <= PROTO_SIZE_MAX then Some(n) else None
  {
    hide ToBe, FromBe, Pow256;
    BeRoundTrip(n, 8);
    Powers();
  }
}
