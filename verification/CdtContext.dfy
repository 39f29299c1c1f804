/** Nested collection contexts: a list of levels, each a type code and, in a union, an integer or a value, with bit 2 of
the type code telling which; and the two-pass packing of an operation into a buffer of exactly the right size. */
module CdtContext {
  import opened Prelude

  /** A client value: an integer, or something else known by its identity. */
  datatype Val = Int(i: bv64) | Other(id: nat)

  /** The union of a level. */
  datatype Payload = Number(i: bv64) | Value(v: Val)

  datatype Item = Item(code: bv32, val: Payload)

  const VALUE_BIT: bv32 := 2

  /** The seven kinds of level. */
  datatype Kind = ListIndex | ListRank | ListValue | MapIndex | MapRank | MapKey | MapValue

  function Code(k: Kind): bv32
  {
    match k
    case ListIndex => 0x10
    case ListRank => 0x11
    case ListValue => 0x13
    case MapIndex => 0x20
    case MapRank => 0x21
    case MapKey => 0x22
    case MapValue => 0x23
  }

  /** What a level creates if it is missing. */
  datatype Create = Nothing | NewList(ordered: bool, pad: bool) | NewMap(order: int)

  /** `as_list_order_to_flag` and `as_map_order_to_flag`; a map order other than key ordered and key-value ordered
      counts as unordered. */
  function Flag(c: Create): bv32
  {
    match c
    case Nothing => 0
    case NewList(ordered, pad) => if ordered then 0xc0 else if pad then 0x80 else 0x40
    case NewMap(order) => if order == 1 then 0x80 else if order == 3 then 0xc0 else 0x40
  }

  /** A level as the application asks for it. */
  datatype Level = Level(kind: Kind, create: Create, arg: Payload)

  /** The levels the interface offers: list levels can be created at an index, map levels at a key, and exactly the
      value and key lookups take a value. */
  predicate Offered(l: Level)
  {
    && (l.create.NewList? ==> l.kind.ListIndex?) && (l.create.NewMap? ==> l.kind.MapKey?)
    && (l.arg.Value? <==> l.kind.ListValue? || l.kind.MapKey? || l.kind.MapValue?)
  }

  /** The tag of an item agrees with its union. */
  predicate Tagged(item: Item) { item.val.Value? <==> item.code & VALUE_BIT != 0 }

  function Encode(l: Level): Item { Item(Code(l.kind) | Flag(l.create), l.arg) }

  function KindOf(code: bv32): Option<Kind>
  {
    var base := code & 0x3f;
    if base == 0x10 then Some(ListIndex)
    else if base == 0x11 then Some(ListRank)
    else if base == 0x13 then Some(ListValue)
    else if base == 0x20 then Some(MapIndex)
    else if base == 0x21 then Some(MapRank)
    else if base == 0x22 then Some(MapKey)
    else if base == 0x23 then Some(MapValue) else None
  }

  /** The two high bits of the code of a level: none if nothing is to be created; for a list whether it is ordered and
      otherwise whether it may be padded; for a map its order. */
  predicate CreateBits(c: Create, bits: bv32)
  {
    match c
    case Nothing => bits == 0
    case NewList(ordered, pad) =>
      (bits == 0xc0 <==> ordered) && (bits == 0x80 <==> !ordered && pad) && (bits == 0x40 <==> !ordered && !pad)
    case NewMap(order) =>
      (bits == 0x80 <==> order == 1) && (bits == 0xc0 <==> order == 3) && (bits == 0x40 <==> order != 1 && order != 3)
  }

  /** Kind and create request can be read off the code, and the tag is right, for every level the interface offers. */
  predicate Recovered(l: Level, item: Item)
  {
    && Tagged(item) && item.val == l.arg && item.code < 0x100
    && KindOf(item.code) == Some(l.kind) && CreateBits(l.create, item.code & 0xc0)
  }

  lemma LevelRecovered(l: Level)
    requires Offered(l)
    ensures Recovered(l, Encode(l))
  {
    FlagIs(l.create);
    CodeIs(l.kind);
    hide Code, Flag;
    CodeFlag(Code(l.kind), Flag(l.create));
    KindIs(l.kind, Code(l.kind) | Flag(l.create));
  }

  lemma FlagIs(c: Create)
    ensures Flag(c) == 0 || Flag(c) == 0x40 || Flag(c) == 0x80 || Flag(c) == 0xc0
    ensures CreateBits(c, Flag(c))
  {
  }

  lemma CodeIs(k: Kind)
    ensures Code(k) & 0xc0 == 0 && Code(k) & 0x3f == Code(k)
    ensures Code(k) & VALUE_BIT != 0 <==> k.ListValue? || k.MapKey? || k.MapValue?
  {
  }

  lemma KindIs(k: Kind, code: bv32)
    requires code & 0x3f == Code(k)
    ensures KindOf(code) == Some(k)
  {
  }

  lemma CodeFlag(code: bv32, flag: bv32)
    requires code & 0xc0 == 0 && code & 0x3f == code && (flag == 0 || flag == 0x40 || flag == 0x80 || flag == 0xc0)
    ensures (code | flag) & 0x3f == code && (code | flag) & 0xc0 == flag && code | flag < 0x100
            && (code | flag) & VALUE_BIT == code & VALUE_BIT
  {
  }

  /** The context of an operation: levels are only ever appended. */
  class Context {
    var items: seq<Item>

    ghost predicate Valid()
      reads this
    {
      forall i :: 0 <= i < |items| ==> Tagged(items[i])
    }

    constructor ()
      ensures Valid() && items == []
    {
      items := [];
    }

    /** The `as_cdt_ctx_add_*` functions. */
    method Add(l: Level)
      requires Valid() && Offered(l)
      modifies this
      ensures Valid() && items == old(items) + [Encode(l)] && Recovered(l, items[|old(items)|])
    {
      LevelRecovered(l);
      items := items + [Item(Code(l.kind) | Flag(l.create), l.arg)];
    }

    /** `as_cdt_ctx_destroy`: exactly the values, and no integer, are released, each once and in order. */
    method Destroy() returns (released: seq<Val>)
      requires Valid()
      ensures released == Values(items)
    {
      released := [];
      for i := 0 to |items|
        invariant released == Values(items[..i])
      {
        assert items[..i + 1] == items[..i] + [items[i]];
        ValuesSnoc(items[..i], items[i]);
        assert Tagged(items[i]);
        if items[i].code & VALUE_BIT != 0 {
          released := released + [items[i].val.v];
        }
      }
      assert items[..|items|] == items;
    }
  }

  /** Number of values among the items. */
  function ValueCount(items: seq<Item>): nat
  {
    if items == [] then 0 else (if items[0].val.Value? then 1 else 0) + ValueCount(items[1..])
  }

  /** The values are those of the items, in order, each once, and nothing else. */
  lemma {:induction false} ValuesAt(items: seq<Item>, i: nat)
    requires i < |items|
    ensures |Values(items)| == ValueCount(items) && ValueCount(items[..i]) <= ValueCount(items)
    ensures items[i].val.Value? ==>
              ValueCount(items[..i]) < |Values(items)| && Values(items)[ValueCount(items[..i])] == items[i].val.v
  {
    if i > 0 {
      ValuesAt(items[1..], i - 1);
      assert items[..i][1..] == items[1..][..i - 1];
    } else if |items| > 1 {
      ValuesAt(items[1..], 0);
      assert items[1..][..0] == [];
    } else {
      assert items[1..] == [];
    }
  }

  function Values(items: seq<Item>): seq<Val>
  {
    if items == [] then []
    else (if items[0].val.Value? then [items[0].val.v] else []) + Values(items[1..])
  }

  lemma {:induction false} ValuesSnoc(items: seq<Item>, item: Item)
    ensures Values(items + [item]) == Values(items) + if item.val.Value? then [item.val.v] else []
  {
    if items == [] {
      assert items + [item] == [item];
    } else {
      ValuesSnoc(items[1..], item);
      assert (items + [item])[1..] == items[1..] + [item];
    }
  }

  // ---------- serialised contexts ----------

  /** `as_cdt_ctx_pack`: a list of type code and argument per level. */
  function Pack(items: seq<Item>): seq<Val>
  {
    if items == [] then []
    else
      var arg := if items[0].val.Value? then items[0].val.v else Int(items[0].val.i);
      [Int(Wide(items[0].code)), arg] + Pack(items[1..])
  }

  /** Level i of a serialised context: its code at place 2i, behind it its value, or its number as a value. */
  lemma {:induction false} PackAt(items: seq<Item>, i: nat)
    requires i < |items|
    ensures |Pack(items)| == 2 * |items| && Pack(items)[2 * i] == Int(items[i].code as bv64)
    ensures Pack(items)[2 * i + 1] == match items[i].val case Number(n) => Int(n) case Value(v) => v
  {
    if |items| > 1 {
      PackAt(items[1..], if i > 0 then i - 1 else 0);
    } else {
      assert items[1..] == [];
    }
  }

  function Wide(c: bv32): bv64 { c as bv64 }

  function Low32(i: bv64): bv32 { (i & 0xFFFF_FFFF) as bv32 }

  /** `as_cdt_ctx_from_unpacker`: codes must be integers, integer arguments too, and the list must not end after a
      code. */
  function Unpack(list: seq<Val>): (r: Option<seq<Item>>)
    decreases |list|
  {
    if list == [] then Some([])
    else if !list[0].Int? || |list| == 1 then None
    else
      var code := Low32(list[0].i);
      if code & VALUE_BIT == 0 && !list[1].Int? then None
      else
        var rest := Unpack(list[2..]);
        if rest.None? then None
        else Some([Item(code, if code & VALUE_BIT != 0 then Value(list[1]) else Number(list[1].i))] + rest.value)
  }

  /** A level of a list: an integer code and, unless the code says that a value follows, an integer. */
  predicate LevelAt(list: seq<Val>, i: nat)
    requires 2 * i + 1 < |list|
  {
    list[2 * i].Int? && ((list[2 * i].i & 2 == 0) ==> list[2 * i + 1].Int?)
  }

  /** A list is accepted exactly if it consists of such levels. */
  lemma {:induction false} UnpackIff(list: seq<Val>)
    ensures Unpack(list).Some? <==> |list| % 2 == 0 && forall i: nat :: 2 * i + 1 < |list| ==> LevelAt(list, i)
    decreases |list|
  {
    if |list| >= 2 {
      UnpackIff(list[2..]);
      var rest := list[2..];
      if list[0].Int? { LowBit(list[0].i); }
      hide Low32;
      assert LevelAt(list, 0) <==> list[0].Int? && (list[0].i & 2 == 0 ==> list[1].Int?);
      forall i: nat | 2 * i + 1 < |rest| ensures LevelAt(rest, i) == LevelAt(list, i + 1) {
      }
      if forall i: nat :: 2 * i + 1 < |rest| ==> LevelAt(rest, i) {
        forall i: nat | i > 0 && 2 * i + 1 < |list| ensures LevelAt(list, i) { assert LevelAt(rest, i - 1); }
      }
    } else if |list| == 1 {
      assert |list| % 2 == 1;
    }
  }

  lemma LowBit(i: bv64)
    ensures Low32(i) & VALUE_BIT == 0 <==> i & 2 == 0
  {
  }

  lemma LowOfWide(c: bv32)
    ensures Low32(Wide(c)) == c
  {
  }

  /** Every context survives serialisation. */
  lemma {:induction false} PackUnpack(items: seq<Item>)
    requires forall i :: 0 <= i < |items| ==> Tagged(items[i])
    ensures Unpack(Pack(items)) == Some(items)
  {
    if items != [] {
      PackUnpack(items[1..]);
      LowOfWide(items[0].code);
      assert Tagged(items[0]);
      assert Pack(items)[2..] == Pack(items[1..]);
      assert items == [items[0]] + items[1..];
    }
  }

  predicate Fits32(i: bv64) { i <= 0xFFFF_FFFF }

  /** Codes of a list are in their 32 bits. */
  predicate Narrow(list: seq<Val>) { forall i :: 0 <= i < |list| && i % 2 == 0 && list[i].Int? ==> Fits32(list[i].i) }

  lemma NarrowTail(list: seq<Val>)
    requires |list| >= 2 && list[0].Int?
    ensures Narrow(list) <==> Fits32(list[0].i) && Narrow(list[2..])
  {
    var rest := list[2..];
    if Narrow(list) {
      forall i | 0 <= i < |rest| && i % 2 == 0 && rest[i].Int? ensures Fits32(rest[i].i) {
        assert rest[i] == list[i + 2];
      }
    }
    if Fits32(list[0].i) && Narrow(rest) {
      forall i | 0 <= i < |list| && i % 2 == 0 && list[i].Int? ensures Fits32(list[i].i) {
        if i > 0 { assert list[i] == rest[i - 2]; }
      }
    }
  }

  lemma LowFits(i: bv64)
    ensures Wide(Low32(i)) == i <==> Fits32(i)
  {
  }

  /** The first level of an accepted list. */
  lemma UnpackHead(list: seq<Val>)
    requires Unpack(list).Some? && list != []
    ensures |list| >= 2 && list[0].Int? && Unpack(list[2..]).Some?
    ensures var items := Unpack(list).value;
            && items != [] && Tagged(items[0]) && items[1..] == Unpack(list[2..]).value
            && Pack(items) == [Int(Wide(Low32(list[0].i))), list[1]] + Pack(Unpack(list[2..]).value)
  {
    hide Low32, Wide;
  }

  /** A list that is accepted gives a well tagged context, and packing it gives the list again exactly if the codes of
      the list have 32 bits. */
  lemma {:induction false} UnpackPack(list: seq<Val>)
    requires Unpack(list).Some?
    ensures forall i :: 0 <= i < |Unpack(list).value| ==> Tagged(Unpack(list).value[i])
    ensures Pack(Unpack(list).value) == list <==> Narrow(list)
    decreases |list|
  {
    if list != [] {
      UnpackHead(list);
      UnpackPack(list[2..]);
      NarrowTail(list);
      LowFits(list[0].i);
      hide Low32, Wide, Fits32, Pack, Unpack, Tagged, Narrow;
      SameList(Int(Wide(Low32(list[0].i))), list, Pack(Unpack(list[2..]).value));
      var items := Unpack(list).value;
      forall i | 0 <= i < |items| ensures Tagged(items[i]) {
        if i > 0 { assert items[i] == items[1..][i - 1]; }
      }
    }
  }

  lemma SameList(head: Val, list: seq<Val>, rest: seq<Val>)
    requires |list| >= 2
    ensures [head, list[1]] + rest == list <==> head == list[0] && rest == list[2..]
  {
    assert list == [list[0], list[1]] + list[2..];
    if [head, list[1]] + rest == list {
      assert rest == ([head, list[1]] + rest)[2..];
      assert head == ([head, list[1]] + rest)[0];
    }
  }

  // ---------- two-pass packing ----------

  function Flat(chunks: seq<seq<byte>>): seq<byte>
  {
    if chunks == [] then [] else Flat(chunks[..|chunks| - 1]) + chunks[|chunks| - 1]
  }

  class Packer {
    var buffer: array?<byte>
    var capacity: nat
    var offset: nat

    constructor ()
      ensures buffer == null && capacity == 0 && offset == 0
    {
      buffer, capacity, offset := null, 0, 0;
    }

    /** Appends bytes; without a buffer only their number counts. */
    method Append(bytes: seq<byte>)
      requires buffer != null ==> capacity == buffer.Length && offset + |bytes| <= capacity
      modifies this`offset, buffer
      ensures offset == old(offset) + |bytes| && buffer == old(buffer)
      ensures buffer != null ==> buffer[..offset] == old(buffer[..offset]) + bytes
    {
      if buffer != null {
        ghost var before := buffer[..offset];
        for i := 0 to |bytes|
          invariant buffer == old(buffer) && offset == old(offset) && buffer[..offset + i] == before + bytes[..i]
        {
          buffer[offset + i] := bytes[i];
          assert buffer[..offset + i + 1] == buffer[..offset + i] + [bytes[i]];
          assert bytes[..i + 1] == bytes[..i] + [bytes[i]];
        }
        assert bytes[..|bytes|] == bytes;
      }
      offset := offset + |bytes|;
    }

    /** `as_cdt_begin` ... `as_cdt_end` around a body that packs the given pieces: the first pass measures, the second
        fills a buffer of exactly that size. */
    method PackTwice(chunks: seq<seq<byte>>) returns (passes: nat)
      requires buffer == null && capacity == 0 && offset == 0 && |Flat(chunks)| > 0
      modifies this
      ensures passes == 2 && buffer != null && fresh(buffer)
      ensures buffer[..] == Flat(chunks) && offset == capacity == buffer.Length
    {
      passes := 0;
      while true
        invariant passes <= 1 && offset == 0
        invariant passes == 0 ==> buffer == null
        invariant passes == 1 ==> buffer != null && fresh(buffer) && capacity == buffer.Length == |Flat(chunks)|
        decreases 2 - passes
      {
        passes := passes + 1;
        PackBody(chunks);
        if buffer == null {
          buffer := new byte[offset];
          capacity := offset;
          offset := 0;
          continue;
        }
        break;
      }
      assert buffer[..] == buffer[..offset];
    }

    method PackBody(chunks: seq<seq<byte>>)
      requires offset == 0 && (buffer != null ==> capacity == buffer.Length == |Flat(chunks)|)
      modifies this`offset, buffer
      ensures buffer == old(buffer) && offset == |Flat(chunks)|
      ensures buffer != null ==> buffer[..offset] == Flat(chunks)
    {
      for i := 0 to |chunks|
        invariant buffer == old(buffer) && offset == |Flat(chunks[..i])|
        invariant buffer != null ==> offset <= buffer.Length && buffer[..offset] == Flat(chunks[..i])
      {
        assert chunks[..i + 1][..i] == chunks[..i];
        FlatPrefix(chunks, i + 1);
        Append(chunks[i]);
      }
      assert chunks[..|chunks|] == chunks;
    }
  }

  lemma {:induction false} FlatPrefix(chunks: seq<seq<byte>>, i: nat)
    requires i <= |chunks|
    ensures |Flat(chunks[..i])| <= |Flat(chunks)|
  {
    if i < |chunks| {
      FlatPrefix(chunks[..|chunks| - 1], i);
      assert chunks[..|chunks| - 1][..i] == chunks[..i];
    } else {
      assert chunks[..i] == chunks;
    }
  }
}
