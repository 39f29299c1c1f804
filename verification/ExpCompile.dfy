/** `as_exp_compile`: two passes over an entry table.

The first pass sizes the output and, in place, turns the missing count of every variadic
entry into its element count; the second pass writes one group of tokens per entry. */
module ExpCompile {
  import opened Prelude
  import opened ExpWire
  import opened ExpTable

  const U32: int := 0x1_0000_0000

  /** Places of open variadic entries are signed 32 bit numbers. */
  const MAX_ENTRIES: int := 0x8000_0000

  // ---------- first pass ----------

  /** The table, the innermost open variadic entry (or -1) and the exact size so far; the program keeps the size modulo
      2^32. */
  datatype State = State(table: seq<Entry>, prev: int, size: nat)

  /** Before entry i: `prev` and the links of all variadic entries already passed point backwards. */
  ghost predicate Linked(table: seq<Entry>, prev: int, i: int)
  {
    && 0 <= i <= |table|
    && LinkOk(table, prev, i)
    && forall j :: 0 <= j < i && IsVaEntry(table[j]) ==> LinkOk(table, table[j].prev, j)
  }

  ghost predicate LinkOk(table: seq<Entry>, p: int, i: int)
    requires i <= |table|
  {
    p == -1 || (0 <= p < i && IsVaEntry(table[p]))
  }

  predicate IsVaEntry(e: Entry) { e.item.Code? && OpensList(e.item.code) }

  /** The operations the first loop counts arguments for are those the macros close with an end marker. */
  predicate OpensList(code: nat): (r: bool)
    ensures r <==> IsVariadic(code)
  {
    || code == COND || code == LET || 16 <= code <= 17 || 19 <= code <= 23 || 32 <= code <= 34 || 50 <= code <= 51
  }

  /** Same operations and links; counts may differ. */
  ghost predicate SameLinks(t: seq<Entry>, u: seq<Entry>)
  {
    |t| == |u| && forall j :: 0 <= j < |t| ==> t[j].item == u[j].item && t[j].prev == u[j].prev
  }

  lemma LinkedSame(t: seq<Entry>, u: seq<Entry>, prev: int, i: int)
    requires SameLinks(t, u) && Linked(t, prev, i)
    ensures Linked(u, prev, i)
  {
    forall j | 0 <= j < i && IsVaEntry(u[j])
      ensures LinkOk(u, u[j].prev, j)
    {
      assert IsVaEntry(t[j]) && LinkOk(t, t[j].prev, j);
    }
  }

  /** Adds d to the count of the innermost open variadic entry, if there is one. */
  function Bump(table: seq<Entry>, prev: int, d: int): (t: seq<Entry>)
    requires prev == -1 || 0 <= prev < |table|
    ensures SameLinks(table, t)
  {
    if prev == -1 then table
    else table[prev := table[prev].(count := Wrap(table[prev].count + d))]
  }

  /** What a policy entry changes in the enclosing count beyond the one every entry adds. */
  function PolicyAdjust(item: Item): int
  {
    match item
    case ListCrMod(p) => if p.Some? then 1 else -1
    case ListMod(p) => if p.Some? then 0 else -1
    case MapCrMod(p) => if p.Some? then 1 else -1
    case MapCr(p) => if p.Some? then 0 else -1
    case MapMod(p) => if p.Some? then 0 else -1
    case _ => 0
  }

  /** A context is packed only directly behind a CDT system number. */
  predicate CdtBefore(table: seq<Entry>, i: nat)
    requires i < |table|
  {
    i > 0 && table[i - 1].item.ValInt? &&
    (table[i - 1].item.i == CALL_CDT || table[i - 1].item.i == CALL_CDT + MODIFY_LOCAL)
  }

  /** `as_cdt_ctx_pack`: a list header, then the type and the value of every level. */
  function CtxTokens(ctx: Ctx): seq<Token> { [ListHeader(2 * |ctx.items|)] + FlatMap(LevelTokens, ctx.items) }

  function LevelTokens(level: CtxItem): seq<Token> { [IntT(level.kind)] + Encode(level.value) }

  predicate CtxAccepted(ctx: Ctx, cdt: bool)
  {
    ctx.items != [] && cdt && ctx.packable
  }

  /** Bytes an entry adds besides its own list header; None makes the compilation fail. */
  function ItemSize(sz: Token -> nat, item: Item, cdt: bool): Option<nat>
  {
    match item
    case Code(c) => Some(sz(IntT(c)))
    case AsVal(v, ok) =>
      if !ok then None
      else Some((if v.List? then sz(ListHeader(2)) + sz(IntT(QUOTE)) else 0) + Bytes(sz, Encode(v)))
    case ValGeo(g, ok) => if !ok then None else Some(sz(ScalarToken(GeoS(g))))
    case ValRtype(i) => if i == TYPE_ERROR then None else Some(sz(IntT(i)))
    case ValInt(i) => Some(sz(IntT(i)))
    case ValUint(u) => Some(sz(IntT(u)))
    case ValFloat(r) => Some(sz(ScalarToken(FloatS(r))))
    case ValBool(b) => Some(sz(ScalarToken(BoolS(b))))
    case ValStr(s) => Some(sz(ScalarToken(StrS(s))))
    case ValBytes(b) => Some(sz(ScalarToken(BytesS(b))))
    case ValRawStr(s) => Some(sz(ScalarToken(RawStrS(s))))
    case VopStart(ctx) =>
      if ctx.None? then Some(0)
      else if !CtxAccepted(ctx.value, cdt) then None
      else Some(sz(ListHeader(3)) + sz(IntT(CONTEXT_EVAL)) + Bytes(sz, CtxTokens(ctx.value)))
    case Merge(v) => Some(Bytes(sz, Encode(v)))
    case EndOfVaArgs => Some(0)
    case ListCrMod(p) => Some(if p.None? then 0 else sz(IntT(p.value.attributes)) + sz(IntT(p.value.flags)))
    case ListMod(p) => Some(if p.None? then 0 else sz(IntT(p.value.flags)))
    case MapCrMod(p) => Some(if p.None? then 0 else sz(IntT(p.value.attributes)) + sz(IntT(p.value.flags)))
    case MapCr(p) => Some(if p.None? then 0 else sz(IntT(p.value.attributes)))
    case MapMod(p) => Some(if p.None? then 0 else sz(IntT(p.value.flags)))
  }

  /** The counts after the part of an iteration that does not depend on the operation. */
  function Counted(table: seq<Entry>, prev: int, i: nat): (t: seq<Entry>)
    requires i < |table| && (prev == -1 || 0 <= prev < i)
    ensures SameLinks(table, t)
  {
    var t1 := Bump(table, prev, 1);
    if table[i].count != 0 then Bump(t1, prev, -(table[i].count - 1)) else t1
  }

  function HeaderSize(sz: Token -> nat, entry: Entry): nat
  {
    if entry.count != 0 then sz(ListHeader(entry.count)) else 0
  }

  /** The part of an iteration that depends on the operation, once the entry has been counted. */
  function Switch(sz: Token -> nat, t: seq<Entry>, prev: int, i: nat, size: nat): (r: Option<State>)
    requires i < |t| && LinkOk(t, prev, i)
    ensures r.Some? ==> |r.value.table| == |t|
  {
    match t[i].item
    case EndOfVaArgs =>
      if prev == -1 then None
      else Some(State(t, t[prev].prev, size + sz(ListHeader(t[prev].count))))
    case VopStart(_) => Some(State(Bump(t, prev, -1), prev, size))
    case Code(c) =>
      if OpensList(c) then Some(State(t[i := Entry(t[i].item, 0, prev)], i, size))
      else Some(State(t, prev, size))
    case _ => Some(State(Bump(t, prev, PolicyAdjust(t[i].item)), prev, size))
  }

  /** One iteration of the first loop. */
  function Step(sz: Token -> nat, st: State, i: nat): (r: Option<State>)
    requires i < |st.table| && LinkOk(st.table, st.prev, i)
    ensures r.Some? ==> |r.value.table| == |st.table|
  {
    var item := ItemSize(sz, st.table[i].item, CdtBefore(st.table, i));
    if item.None? then None
    else Switch(sz, Counted(st.table, st.prev, i), st.prev, i,
                st.size + HeaderSize(sz, st.table[i]) + item.value)
  }

  lemma StepLinked(sz: Token -> nat, st: State, i: nat)
    requires i < |st.table| && Linked(st.table, st.prev, i)
    ensures Step(sz, st, i).Some? ==>
              Linked(Step(sz, st, i).value.table, Step(sz, st, i).value.prev, i + 1)
  {
    var r := Step(sz, st, i);
    var entry := st.table[i];
    if r.Some? {
      if IsVaEntry(entry) {
        var t := Counted(st.table, st.prev, i);
        var u := t[i := Entry(entry.item, 0, st.prev)];
        LinkedSame(st.table, t, st.prev, i);
        forall j | 0 <= j < i + 1 && IsVaEntry(u[j])
          ensures LinkOk(u, u[j].prev, j)
        {
          if j < i {
            assert LinkOk(t, t[j].prev, j);
          }
        }
      } else {
        LinkedSame(st.table, r.value.table, st.prev, i);
      }
    }
  }

  /** The first loop from entry i up to (not including) entry n. */
  function Pass1(sz: Token -> nat, st: State, i: nat, n: nat): (r: Option<State>)
    requires i <= n <= |st.table| && Linked(st.table, st.prev, i)
    ensures r.Some? ==> |r.value.table| == |st.table| && Linked(r.value.table, r.value.prev, n)
    decreases n - i
  {
    if i == n then Some(st)
    else
      var r := Step(sz, st, i);
      StepLinked(sz, st, i);
      if r.None? then None else Pass1(sz, r.value, i + 1, n)
  }

  // ---------- second pass ----------

  function ItemTokens(item: Item): seq<Token>
  {
    match item
    case Code(c) => [IntT(c)]
    case AsVal(v, _) => (if v.List? then [ListHeader(2), IntT(QUOTE)] else []) + Encode(v)
    case ValGeo(g, _) => [ScalarToken(GeoS(g))]
    case ValRtype(i) => [IntT(i)]
    case ValInt(i) => [IntT(i)]
    case ValUint(u) => [IntT(u)]
    case ValFloat(r) => [ScalarToken(FloatS(r))]
    case ValBool(b) => [ScalarToken(BoolS(b))]
    case ValStr(s) => [ScalarToken(StrS(s))]
    case ValBytes(b) => [ScalarToken(BytesS(b))]
    case ValRawStr(s) => [ScalarToken(RawStrS(s))]
    case VopStart(ctx) =>
      if ctx.None? then [] else [ListHeader(3), IntT(CONTEXT_EVAL)] + CtxTokens(ctx.value)
    case Merge(v) => Encode(v)
    case EndOfVaArgs => []
    case ListCrMod(p) => if p.None? then [] else [IntT(p.value.attributes), IntT(p.value.flags)]
    case ListMod(p) => if p.None? then [] else [IntT(p.value.flags)]
    case MapCrMod(p) => if p.None? then [] else [IntT(p.value.attributes), IntT(p.value.flags)]
    case MapCr(p) => if p.None? then [] else [IntT(p.value.attributes)]
    case MapMod(p) => if p.None? then [] else [IntT(p.value.flags)]
  }

  /** What the second loop writes for one entry. */
  function Emit(e: Entry): seq<Token>
  {
    if e.item.VopStart? then ItemTokens(e.item) + [ListHeader(e.count)]
    else (if e.count != 0 then [ListHeader(e.count)] else []) + ItemTokens(e.item)
  }

  function EmitAll(t: seq<Entry>): seq<Token> { FlatMap(Emit, t) }

  // ---------- the whole function ----------

  /** The packed expression and the size of the buffer that was allocated for it. */
  datatype Packed = Packed(tokens: seq<Token>, size: nat)

  function Compiled(sz: Token -> nat, table: seq<Entry>): Option<Packed>
  {
    var r := Pass1(sz, State(table, -1, 0), 0, |table|);
    if r.None? then None else Some(Packed(EmitAll(r.value.table), Wrap(r.value.size)))
  }

  /** Adds d, modulo 2^32, to the count of the entry that `prev` names, in place. */
  method AddToCount(table: array<Entry>, prev: int, d: int)
    requires prev == -1 || 0 <= prev < table.Length
    modifies table
    ensures table[..] == Bump(old(table[..]), prev, d)
  {
    if prev != -1 {
      table[prev] := table[prev].(count := Wrap(table[prev].count + d));
    }
  }

  /** `total` is the exact size modulo 2^32. */
  method SwitchEntry(sz: Token -> nat, table: array<Entry>, i: nat, prev: int, total: nat, ghost exact: nat)
    returns (ok: bool, prev': int, total': nat)
    requires i < table.Length && LinkOk(table[..], prev, i) && total == Wrap(exact)
    modifies table
    ensures var r := Switch(sz, old(table[..]), prev, i, exact);
            if !ok then r.None?
            else r.Some? && r.value.table == table[..] && r.value.prev == prev' && total' == Wrap(r.value.size)
  {
    ok, prev', total' := true, prev, total;
    match table[i].item {
      case EndOfVaArgs =>
        if prev == -1 {
          ok := false;
        } else {
          WrapAdd(exact, sz(ListHeader(table[prev].count)));
          total' := Wrap(total + sz(ListHeader(table[prev].count)));
          prev' := table[prev].prev;
        }
      case VopStart(_) =>
        AddToCount(table, prev, -1);
      case Code(c) =>
        if OpensList(c) {
          table[i] := table[i].(count := 0, prev := prev);
          prev' := i;
        }
      case _ =>
        AddToCount(table, prev, PolicyAdjust(table[i].item));
    }
  }

  /** The body of the first loop: false when the compilation must give up. */
  method CountEntry(sz: Token -> nat, table: array<Entry>, i: nat, prev: int, total: nat, ghost exact: nat)
    returns (ok: bool, prev': int, total': nat)
    requires i < table.Length && LinkOk(table[..], prev, i) && total == Wrap(exact)
    modifies table
    ensures var r := Step(sz, State(old(table[..]), prev, exact), i);
            if !ok then r.None?
            else r.Some? && r.value.table == table[..] && r.value.prev == prev' && total' == Wrap(r.value.size)
  {
    hide Wrap, ItemSize, Switch;
    var entry := table[i];
    var cdt := CdtBefore(table[..], i);
    AddToCount(table, prev, 1);
    total' := total;
    WrapAdd(exact, HeaderSize(sz, entry));
    WrapAdd(exact, 0);
    if entry.count != 0 {
      total' := Wrap(total + sz(ListHeader(entry.count)));
      AddToCount(table, prev, -(entry.count - 1));
    }
    assert total' == Wrap(exact + HeaderSize(sz, entry));
    assert table[..] == Counted(old(table[..]), prev, i);
    var item := ItemSize(sz, entry.item, cdt);
    if item.None? {
      return false, prev, total';
    }
    WrapAdd(exact + HeaderSize(sz, entry), item.value);
    ok, prev', total' := SwitchEntry(sz, table, i, prev, Wrap(total' + item.value),
                                     exact + HeaderSize(sz, entry) + item.value);
  }

  /** The first loop. */
  method CountAll(sz: Token -> nat, table: array<Entry>) returns (ok: bool, total: nat)
    modifies table
    ensures var r := Pass1(sz, State(old(table[..]), -1, 0), 0, table.Length);
            if ok then r.Some? && r.value.table == table[..] && total == Wrap(r.value.size) else r.None?
  {
    var n := table.Length;
    var prev := -1;
    total := 0;
    ghost var start := State(table[..], -1, 0);
    ghost var cur := start;
    for i := 0 to n
      invariant cur.table == table[..] && cur.prev == prev && total == Wrap(cur.size)
      invariant Linked(cur.table, cur.prev, i)
      invariant Pass1(sz, start, 0, n) == Pass1(sz, cur, i, n)
    {
      StepLinked(sz, cur, i);
      ok, prev, total := CountEntry(sz, table, i, prev, total, cur.size);
      if !ok {
        return;
      }
      cur := Step(sz, cur, i).value;
    }
    ok := true;
  }

  /** Both loops.  `tokens` is what is written to the buffer, `size` the buffer's capacity. */
  method Compile(sz: Token -> nat, table: array<Entry>) returns (r: Option<Packed>)
    modifies table
    ensures r == Compiled(sz, old(table[..]))
  {
    var ok, total := CountAll(sz, table);
    if !ok {
      return None;
    }
    var tokens := [];
    for i := 0 to table.Length
      invariant tokens == EmitAll(table[..i])
    {
      tokens := tokens + Emit(table[i]);
      assert table[..i + 1][..i] == table[..i];
    }
    assert table[..table.Length] == table[..];
    return Some(Packed(tokens, total));
  }
}
