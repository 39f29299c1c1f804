/** The writers, on a byte buffer updated in place.  A writer gets a position, fills the bytes of its field and returns
the position after it; everything outside those bytes stays as it was. */
module WireWriter {
  import opened Prelude
  import opened Wire

  /** The buffer with `bytes` at position p. */
  function Put(s: seq<byte>, p: nat, bytes: seq<byte>): (r: seq<byte>)
    requires p + |bytes| <= |s|
  {
    s[..p] + bytes + s[p + |bytes|..]
  }

  lemma PutPut(s: seq<byte>, p: nat, a: seq<byte>, b: seq<byte>)
    requires p + |a| + |b| <= |s|
    ensures Put(Put(s, p, a), p + |a|, b) == Put(s, p, a + b)
  {
  }

  /** Writes a payload first and what precedes it afterwards. */
  lemma PutBefore(s: seq<byte>, p: nat, a: seq<byte>, b: seq<byte>)
    requires p + |a| + |b| <= |s|
    ensures Put(Put(s, p + |a|, b), p, a) == Put(s, p, a + b)
  {
  }

  /** `memcpy` into the buffer. */
  method Copy(buf: array<byte>, p: nat, data: seq<byte>)
    requires p + |data| <= buf.Length
    modifies buf
    ensures buf[..] == Put(old(buf[..]), p, data)
  {
    ghost var before := buf[..];
    for i := 0 to |data|
      invariant forall j :: 0 <= j < i ==> buf[p + j] == data[j]
      invariant forall j :: 0 <= j < buf.Length && !(p <= j < p + i) ==> buf[j] == before[j]
    {
      buf[p + i] := data[i];
    }
    assert buf[..] == Put(before, p, data);
  }

  /** A number stored in the given byte order (`cf_swap_to_be`, `cf_swap_to_le` and the store). */
  method Store(buf: array<byte>, p: nat, v: nat, width: nat, big: bool)
    requires p + width <= buf.Length
    modifies buf
    ensures buf[..] == Put(old(buf[..]), p, if big then ToBe(v, width) else ToLe(v, width))
  {
    Copy(buf, p, if big then ToBe(v, width) else ToLe(v, width));
  }

  /** `as_command_write_field_header` */
  method WriteFieldHeader(buf: array<byte>, p: nat, id: byte, size: nat) returns (q: nat)
    requires p + 5 <= buf.Length
    modifies buf
    ensures q == p + 5 && buf[..] == Put(old(buf[..]), p, ToBe(size + 1, 4) + [id])
  {
    ghost var before := buf[..];
    Store(buf, p, size + 1, 4, true);
    ghost var mid := buf[..];
    buf[p + 4] := id;
    assert buf[..] == Put(mid, p + 4, [id]);
    PutPut(before, p, ToBe(size + 1, 4), [id]);
    q := p + 5;
  }

  /** The string in memory that starts with `memory`: everything before the first null byte. */
  function CString(memory: seq<byte>): (s: seq<byte>)
    ensures |s| <= |memory| && s == memory[..|s|] && 0 !in s
    ensures |s| < |memory| ==> memory[|s|] == 0
  {
    if memory == [] || memory[0] == 0 then [] else [memory[0]] + CString(memory[1..])
  }

  lemma {:induction false} CStringIs(memory: seq<byte>, n: nat)
    requires n < |memory| && memory[n] == 0 && forall i :: 0 <= i < n ==> memory[i] != 0
    ensures CString(memory) == memory[..n]
  {
    if n > 0 {
      CStringIs(memory[1..], n - 1);
      assert memory[..n] == [memory[0]] + memory[1..][..n - 1];
    }
  }

  lemma TerminatorFound(memory: seq<byte>)
    requires 0 in memory
    ensures |CString(memory)| < |memory| && memory[|CString(memory)|] == 0
    ensures forall i :: 0 <= i < |CString(memory)| ==> memory[i] == CString(memory)[i] != 0
  {
    var s := CString(memory);
    assert |s| == |memory| ==> memory == s;
    forall i | 0 <= i < |s| ensures memory[i] == s[i] != 0 { assert s[i] in s; }
  }

  /** The copying loop of the string writer. */
  method CopyString(buf: array<byte>, begin: nat, val: seq<byte>) returns (p: nat)
    requires 0 in val && begin + |CString(val)| <= buf.Length
    modifies buf
    ensures p == begin + |CString(val)|
    ensures buf[..] == Put(old(buf[..]), begin, CString(val))
  {
    ghost var before := buf[..];
    ghost var str := CString(val);
    TerminatorFound(val);
    hide CString;
    p := begin;
    var i := 0;
    while val[i] != 0
      invariant 0 <= i <= |str| && p == begin + i
      invariant forall j :: 0 <= j < i ==> buf[begin + j] == str[j]
      invariant forall j :: 0 <= j < buf.Length && !(begin <= j < begin + i) ==> buf[j] == before[j]
      decreases |str| - i
    {
      buf[p] := val[i];
      p, i := p + 1, i + 1;
    }
    assert buf[..] == Put(before, begin, str);
  }

  /** `as_command_write_field_string`: the payload is copied up to, and without, the null byte; the header, which needs
      its length, is written last. */
  method WriteFieldString(buf: array<byte>, begin: nat, id: byte, val: seq<byte>) returns (p: nat)
    requires 0 in val && begin + 5 + |CString(val)| <= buf.Length
    modifies buf
    ensures p == begin + Size(Str(id, CString(val)))
    ensures buf[..] == Put(old(buf[..]), begin, Encode(Str(id, CString(val))))
  {
    hide CString;
    ghost var before := buf[..];
    p := CopyString(buf, begin + 5, val);
    var _ := WriteFieldHeader(buf, begin, id, p - begin - 5);
    PutBefore(before, begin, ToBe(|CString(val)| + 1, 4) + [id], CString(val));
  }

  /** `as_command_write_field_uint32`, `_uint32_le`, `_uint64`, `_uint64_le`. */
  method WriteFieldNumber(buf: array<byte>, begin: nat, id: byte, v: nat, width: nat, big: bool) returns (p: nat)
    requires begin + 5 + width <= buf.Length
    modifies buf
    ensures p == begin + Size(Num(id, v, width, big))
    ensures buf[..] == Put(old(buf[..]), begin, Encode(Num(id, v, width, big)))
  {
    ghost var before := buf[..];
    p := WriteFieldHeader(buf, begin, id, width);
    Store(buf, p, v, width, big);
    PutPut(before, begin, ToBe(width + 1, 4) + [id], Payload(Num(id, v, width, big)));
    p := p + width;
  }

  /** `as_command_write_field_buffer` and `_digest`. */
  method WriteFieldBytes(buf: array<byte>, begin: nat, id: byte, data: seq<byte>) returns (p: nat)
    requires begin + 5 + |data| <= buf.Length
    modifies buf
    ensures p == begin + Size(Raw(id, data))
    ensures buf[..] == Put(old(buf[..]), begin, Encode(Raw(id, data)))
  {
    ghost var before := buf[..];
    p := WriteFieldHeader(buf, begin, id, |data|);
    Copy(buf, p, data);
    PutPut(before, begin, ToBe(|data| + 1, 4) + [id], data);
    p := p + |data|;
  }

  lemma {:induction false} LePrefix(v: nat, k: nat, j: nat)
    requires j <= k
    ensures ToLe(v, k)[..j] == ToLe(v, j)
  {
    if j > 0 {
      LePrefix(v / 256, k - 1, j - 1);
      assert ToLe(v, k)[..j] == [(v % 256) as byte] + ToLe(v / 256, k - 1)[..j - 1];
    }
  }

  /** `as_command_write_field_version`: seven bytes of the little-endian word. */
  method WriteFieldVersion(buf: array<byte>, begin: nat, ver: nat) returns (p: nat)
    requires begin + 12 <= buf.Length
    modifies buf
    ensures p == begin + Size(Version(ver))
    ensures buf[..] == Put(old(buf[..]), begin, Encode(Version(ver)))
  {
    ghost var before := buf[..];
    p := WriteFieldHeader(buf, begin, RECORD_VERSION, 7);
    var word := ToLe(ver, 8);
    LePrefix(ver, 8, 7);
    Copy(buf, p, word[..7]);
    PutPut(before, begin, ToBe(8, 4) + [RECORD_VERSION], ToLe(ver, 7));
    p := p + 7;
  }

  method WriteField(buf: array<byte>, begin: nat, f: Field) returns (p: nat)
    requires begin + Size(f) <= buf.Length && (f.Str? ==> 0 !in f.val)
    modifies buf
    ensures p == begin + Size(f) && buf[..] == Put(old(buf[..]), begin, Encode(f))
  {
    match f {
      case Str(id, val) =>
        CStringIs(val + [0], |val|);
        p := WriteFieldString(buf, begin, id, val + [0]);
      case Num(id, v, width, big) => p := WriteFieldNumber(buf, begin, id, v, width, big);
      case Raw(id, data) => p := WriteFieldBytes(buf, begin, id, data);
      case Version(v) => p := WriteFieldVersion(buf, begin, v);
    }
  }

  lemma {:induction false} EncodeSnoc(fs: seq<Field>, f: Field)
    ensures EncodeAll(fs + [f]) == EncodeAll(fs) + Encode(f)
    ensures SizeAll(fs + [f]) == SizeAll(fs) + Size(f)
  {
    hide Encode, Size;
    if fs == [] {
      assert fs + [f] == [f];
      assert EncodeAll([f]) == Encode(f) + EncodeAll([]);
    } else {
      EncodeSnoc(fs[1..], f);
      assert (fs + [f])[1..] == fs[1..] + [f];
    }
  }

  lemma {:induction false} SizeAllPrefix(fs: seq<Field>, i: nat)
    requires i <= |fs|
    ensures SizeAll(fs[..i]) <= SizeAll(fs)
  {
    if i > 0 {
      SizeAllPrefix(fs[1..], i - 1);
      assert fs[..i][1..] == fs[1..][..i - 1];
    }
  }

  /** Fields written one after another into a buffer that has exactly the computed size fill it completely. */
  method WriteFields(buf: array<byte>, begin: nat, fs: seq<Field>) returns (p: nat)
    requires begin + SizeAll(fs) <= buf.Length
    requires forall i :: 0 <= i < |fs| && fs[i].Str? ==> 0 !in fs[i].val
    modifies buf
    ensures p == begin + SizeAll(fs) && |EncodeAll(fs)| == SizeAll(fs)
    ensures buf[..] == Put(old(buf[..]), begin, EncodeAll(fs))
  {
    ghost var before := buf[..];
    p := begin;
    PutNothing(before, begin);
    hide Put, Encode, Size, Payload;
    for i := 0 to |fs|
      invariant p == begin + SizeAll(fs[..i]) <= buf.Length
      invariant Written(before, buf[..], begin, fs[..i])
    {
      WrittenSnoc(before, buf[..], begin, fs, i);
      p := WriteField(buf, p, fs[i]);
    }
    assert fs[..|fs|] == fs;
  }

  lemma PutNothing(s: seq<byte>, p: nat)
    requires p <= |s|
    ensures Put(s, p, []) == s
  {
  }

  ghost predicate Written(before: seq<byte>, now: seq<byte>, begin: nat, fs: seq<Field>)
  {
    |EncodeAll(fs)| == SizeAll(fs) && begin + SizeAll(fs) <= |before| && now == Put(before, begin, EncodeAll(fs))
  }

  /** One more field after those already written. */
  lemma WrittenSnoc(before: seq<byte>, now: seq<byte>, begin: nat, fs: seq<Field>, i: nat)
    requires i < |fs| && begin + SizeAll(fs) <= |before| && Written(before, now, begin, fs[..i])
    ensures |now| == |before|
    ensures begin + SizeAll(fs[..i]) + Size(fs[i]) == begin + SizeAll(fs[..i + 1]) <= |before|
            && |Encode(fs[i])| == Size(fs[i])
    ensures Written(before, Put(now, begin + SizeAll(fs[..i]), Encode(fs[i])), begin, fs[..i + 1])
  {
    hide Encode, Size, EncodeAll, SizeAll;
    EncodeSnoc(fs[..i], fs[i]);
    assert fs[..i] + [fs[i]] == fs[..i + 1];
    SizeAllPrefix(fs, i + 1);
    SizeExact(fs[..i + 1]);
    EncodeSize(fs[i]);
    PutPut(before, begin, EncodeAll(fs[..i]), Encode(fs[i]));
  }

  lemma EncodeSize(f: Field)
    ensures |Encode(f)| == Size(f)
  {
  }

  /** The bytes are the header of a body of n bytes. */
  ghost predicate HeaderOf(bytes: seq<byte>, n: nat, kind: nat)
  {
    exists len: bv64, k: bv64 :: len as nat == n && k as nat == kind && bytes == Header(len, k)
  }

  /** The header word as a number, and what a receiver makes of its bytes. */
  method HeaderNumber(n: nat, kind: nat) returns (v: nat)
    requires n < 0x1_0000_0000_0000_0000 && kind < 256
    ensures HeaderOf(ToBe(v, 8), n, kind)
    ensures ReadHeader(ToBe(v, 8)) == (PROTO_VERSION, kind, n) <==> n < 0x1_0000_0000_0000
  {
    hide ToBe, ReadHeader, HeaderBits;
    var len := ToWord(n);
    var k := ToWord(kind);
    KindWord(k);
    v := HeaderBits(len, k) as nat;
    assert ToBe(v, 8) == Header(len, k);
    hide Header;
    FrameRoundTrip(len, k);
  }

  lemma KindWord(k: bv64)
    requires k as nat < 256
    ensures k < 256
  {
  }

  /** `as_command_write_end`: the header of a command that occupies the bytes from begin to end. */
  method WriteEnd(buf: array<byte>, begin: nat, end: nat) returns (len: nat)
    requires begin + 8 <= end <= buf.Length && end - begin < 0x1_0000_0000_0000_0000
    modifies buf
    ensures len == end - begin
    ensures buf[..] == Put(old(buf[..]), begin, buf[begin..begin + 8])
            && HeaderOf(buf[begin..begin + 8], len - 8, MESSAGE_TYPE)
    ensures ReadHeader(buf[begin..begin + 8]) == (PROTO_VERSION, MESSAGE_TYPE, len - 8)
            <==> len - 8 < 0x1_0000_0000_0000
  {
    hide ToBe, ReadHeader, HeaderOf;
    len := end - begin;
    ghost var before := buf[..];
    var word := HeaderNumber(len - 8, MESSAGE_TYPE);
    Store(buf, begin, word, 8, true);
    PutAt(before, begin, ToBe(word, 8));
    assert buf[begin..begin + 8] == buf[..][begin..begin + 8];
  }

  lemma PutAt(s: seq<byte>, p: nat, bytes: seq<byte>)
    requires p + |bytes| <= |s|
    ensures Put(s, p, bytes)[p..p + |bytes|] == bytes
  {
  }

  /** `as_command_compress_write_end`: the header and, after it, the size before compression. */
  method CompressWriteEnd(buf: array<byte>, begin: nat, end: nat, uncompressed: nat) returns (len: nat)
    requires begin + 16 <= end <= buf.Length && end - begin < 0x1_0000_0000_0000_0000
             && uncompressed < 0x1_0000_0000_0000_0000
    modifies buf
    ensures len == end - begin
    ensures buf[..] == Put(old(buf[..]), begin, buf[begin..begin + 16])
    ensures HeaderOf(buf[begin..begin + 8], len - 8, COMPRESSED_TYPE)
            && buf[begin + 8..begin + 16] == ToBe(uncompressed, 8)
    ensures ReadHeader(buf[begin..begin + 8]) == (PROTO_VERSION, COMPRESSED_TYPE, len - 8)
            <==> len - 8 < 0x1_0000_0000_0000
    ensures CompressedSize(buf[begin + 8..begin + 16])
            == if uncompressed <= PROTO_SIZE_MAX then Some(uncompressed) else None
  {
    hide ToBe, ReadHeader, HeaderOf, CompressedSize;
    len := end - begin;
    ghost var before := buf[..];
    var word := HeaderNumber(len - 8, COMPRESSED_TYPE);
    ghost var h, u := ToBe(word, 8), ToBe(uncompressed, 8);
    CompressedSizeRoundTrip(uncompressed);
    Store(buf, begin, word, 8, true);
    Store(buf, begin + 8, uncompressed, 8, true);
    PutPut(before, begin, h, u);
    PutAt2(before, begin, h, u);
    hide Put;
    assert buf[begin..begin + 8] == buf[..][begin..begin + 8] == h;
    assert buf[begin + 8..begin + 16] == buf[..][begin + 8..begin + 16] == u;
    assert buf[begin..begin + 16] == h + u;
  }

  lemma PutAt2(s: seq<byte>, p: nat, a: seq<byte>, b: seq<byte>)
    requires p + |a| + |b| <= |s|
    ensures var r := Put(s, p, a + b);
            |r| == |s| && r[p..p + |a|] == a && r[p + |a|..p + |a| + |b|] == b
  {
  }
}
