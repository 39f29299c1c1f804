/** Compiling the table of any expression yields the encoding of its nested list. */
module ExpCorrect {
  import opened Prelude
  import opened ExpWire
  import opened ExpTable
  import opened ExpCompile

  // ---------- which expressions compile ----------

  predicate LeafOk(item: Item)
  {
    match item
    case AsVal(_, ok) => ok
    case ValGeo(_, ok) => ok
    case _ => true
  }

  predicate IsCdt(system: int) { system == CALL_CDT || system == CALL_CDT + MODIFY_LOCAL }

  predicate CallOk(e: Expr)
    requires e.Call?
  {
    e.rtype != TYPE_ERROR
    && (e.ctx.Some? ==> e.ctx.value.items != [] && e.ctx.value.packable && IsCdt(e.system))
  }

  /** Every value serializes, every call has a return type, every context is non-empty, packable and on a CDT call. */
  predicate Compilable(e: Expr)
    decreases e, 1
  {
    match e
    case Leaf(item) => LeafOk(item)
    case Fixed(_, args) => AllCompilable(args)
    case Variadic(_, args) => AllCompilable(args)
    case Call(_, _, _, _, params, _, bin) => CallOk(e) && AllCompilable(params) && Compilable(bin)
  }

  predicate AllCompilable(es: seq<Expr>)
    decreases es, 0
  {
    es == [] || (Compilable(es[0]) && AllCompilable(es[1..]))
  }

  // ---------- the second pass on a resolved table ----------

  lemma EmitAllConcat(a: seq<Entry>, b: seq<Entry>)
    ensures EmitAll(a + b) == EmitAll(a) + EmitAll(b)
  {
    FlatMapConcat(Emit, a, b);
  }

  lemma EmitOne(e: Entry)
    ensures EmitAll([e]) == Emit(e)
  {
    FlatMapOne(Emit, e);
  }

  lemma EmitSame(a: seq<Entry>, b: seq<Entry>)
    requires |a| == |b| && forall j :: 0 <= j < |a| ==> Same(a[j], b[j])
    ensures EmitAll(a) == EmitAll(b)
  {
    FlatMapCong(Emit, a, b);
  }

  /** The second pass writes the parameters a policy stands for. */
  lemma PolicyTokens(item: Item)
    requires IsPolicy(item)
    ensures ItemTokens(item) == EncodeAll(IntValues(PolicyInts(item)))
  {
    var ns := PolicyInts(item);
    if |ns| == 1 {
      EncodeSingle(IntV(ns[0]));
      assert ns[1..] == [] && IntValues(ns) == [IntV(ns[0])];
    } else if |ns| == 2 {
      EncodeAllConcat([IntV(ns[0])], [IntV(ns[1])]);
      EncodeSingle(IntV(ns[0]));
      EncodeSingle(IntV(ns[1]));
      assert ns[1..] == [ns[1]] && ns[1..][1..] == [];
      assert IntValues(ns) == [IntV(ns[0])] + [IntV(ns[1])];
    }
  }

  /** A packed context is the list of the types and values of its levels. */
  lemma CtxTokensEncode(ctx: Ctx)
    ensures CtxTokens(ctx) == Encode(CtxValue(ctx))
  {
    LevelsEncode(ctx.items);
  }

  lemma {:induction false} LevelsEncode(items: seq<CtxItem>)
    ensures FlatMap(LevelTokens, items) == EncodeAll(CtxItemsValues(items))
  {
    if items != [] {
      var head := [IntV(items[0].kind), items[0].value];
      LevelsEncode(items[1..]);
      FlatMapConcat(LevelTokens, [items[0]], items[1..]);
      FlatMapOne(LevelTokens, items[0]);
      assert items == [items[0]] + items[1..];
      EncodeAllConcat([IntV(items[0].kind)], [items[0].value]);
      EncodeAllConcat(head, CtxItemsValues(items[1..]));
      EncodeSingle(IntV(items[0].kind));
      EncodeSingle(items[0].value);
      assert head == [IntV(items[0].kind)] + [items[0].value];
    }
  }

  lemma EncodeSingle(v: Value)
    ensures EncodeAll([v]) == Encode(v)
  {
    assert EncodeAll([v]) == Encode(v) + EncodeAll([]);
  }

  /** The second pass over a resolved table writes the encoding of the tree. */
  lemma {:induction false} EmitResolved(e: Expr)
    requires WellFormed(e)
    ensures EmitAll(Resolve(e)) == Encode(Meaning(e))
    decreases e, 1
  {
    hide EmitAll, Encode;
    match e {
      case Leaf(item) =>
        EmitOne(Plain(item));
        EmitLeaf(item);
      case Fixed(code, args) =>
        EmitResolvedList(code, args);
      case Variadic(code, args) =>
        EmitResolvedList(code, args);
        EmitThenEnd([Entry(Code(code), 1 + |args|, 0)] + ResolveAll(args));
      case Call(_, _, _, _, params, policy, bin) =>
        EmitResolvedAll(params);
        EmitResolved(bin);
        EmitCall(e);
    }
  }

  lemma EmitThenEnd(t: seq<Entry>)
    ensures EmitAll(t + [Plain(EndOfVaArgs)]) == EmitAll(t)
  {
    EmitAllConcat(t, [Plain(EndOfVaArgs)]);
    EmitOne(Plain(EndOfVaArgs));
  }

  lemma EmitLeaf(item: Item)
    requires IsLeaf(item)
    ensures Emit(Plain(item)) == Encode(LeafValue(item))
  {
    match item {
      case AsVal(v, _) =>
        if v.List? {
          EncodeSingle(v);
          assert EncodeAll([IntV(QUOTE), v]) == Encode(IntV(QUOTE)) + EncodeAll([IntV(QUOTE), v][1..]);
          assert [IntV(QUOTE), v][1..] == [v];
          assert Encode(LeafValue(item)) == [ListHeader(2), IntT(QUOTE)] + Encode(v);
        }
      case _ =>
    }
  }

  lemma {:induction false} EmitResolvedList(code: nat, args: seq<Expr>)
    requires AllWellFormed(args)
    ensures EmitAll([Entry(Code(code), 1 + |args|, 0)] + ResolveAll(args))
         == Encode(List([IntV(code)] + Meanings(args)))
    decreases args, 1
  {
    hide EmitAll, Encode, EncodeAll;
    var h := Entry(Code(code), 1 + |args|, 0);
    EmitAllConcat([h], ResolveAll(args));
    EmitHead(code, |args|);
    EmitResolvedAll(args);
    EncodeCons(code, Meanings(args));
  }

  lemma EmitHead(code: nat, n: nat)
    ensures EmitAll([Entry(Code(code), 1 + n, 0)]) == [ListHeader(1 + n), IntT(code)]
  {
    EmitOne(Entry(Code(code), 1 + n, 0));
  }

  lemma EncodeCons(code: nat, vs: seq<Value>)
    ensures Encode(List([IntV(code)] + vs)) == [ListHeader(1 + |vs|), IntT(code)] + EncodeAll(vs)
  {
    EncodeAllConcat([IntV(code)], vs);
    EncodeSingle(IntV(code));
  }

  lemma {:induction false} EmitResolvedAll(es: seq<Expr>)
    requires AllWellFormed(es)
    ensures EmitAll(ResolveAll(es)) == EncodeAll(Meanings(es))
    decreases es, 0
  {
    if es != [] {
      EmitResolved(es[0]);
      EmitResolvedAll(es[1..]);
      EmitAllConcat(Resolve(es[0]), ResolveAll(es[1..]));
      assert Meanings(es)[1..] == Meanings(es[1..]);
    }
  }

  /** The part of a call between its operation header and its bin. */
  function VopBody(e: Expr): seq<Token>
    requires e.Call? && WellFormed(e)
  {
    [IntT(e.vop)] + EncodeAll(Meanings(e.params)) + EncodeAll(IntValues(ExtraParams(e.policy)))
  }

  lemma EmitCall(e: Expr)
    requires e.Call? && WellFormed(e)
    requires EmitAll(ResolveAll(e.params)) == EncodeAll(Meanings(e.params))
    requires EmitAll(Resolve(e.bin)) == Encode(Meaning(e.bin))
    ensures EmitAll(Resolve(e)) == Encode(Meaning(e))
  {
    var pre := CallPrefix(e);
    var c := VopCount(e.params, e.policy);
    var ctxTokens := ItemTokens(VopStart(e.ctx));
    EmitAllConcat(pre + ResolveAll(e.params) + PolicyEntries(e.policy), Resolve(e.bin));
    EmitAllConcat(pre + ResolveAll(e.params), PolicyEntries(e.policy));
    EmitAllConcat(pre, ResolveAll(e.params));
    EmitPrefix(e);
    EmitPolicy(e.policy);
    var head := [ListHeader(5), IntT(CALL), IntT(e.rtype), IntT(e.system)];
    RegroupEmitted(head, ctxTokens, ListHeader(c), IntT(e.vop), EncodeAll(Meanings(e.params)),
                   EncodeAll(IntValues(ExtraParams(e.policy))), Encode(Meaning(e.bin)));
    EncodeCall(e);
  }

  lemma EmitPolicy(policy: Option<Item>)
    requires policy.Some? ==> IsPolicy(policy.value)
    ensures EmitAll(PolicyEntries(policy)) == EncodeAll(IntValues(ExtraParams(policy)))
  {
    if policy.Some? {
      EmitOne(Plain(policy.value));
      PolicyTokens(policy.value);
    }
  }

  lemma RegroupEmitted(head: seq<Token>, ctx: seq<Token>, h: Token, v: Token,
                       params: seq<Token>, extra: seq<Token>, bin: seq<Token>)
    ensures head + ctx + [h, v] + params + extra + bin == head + ctx + [h] + ([v] + params + extra) + bin
  {
  }

  lemma EmitPrefix(e: Expr)
    requires e.Call?
    ensures EmitAll(CallPrefix(e)) == [ListHeader(5), IntT(CALL), IntT(e.rtype), IntT(e.system)]
              + ItemTokens(VopStart(e.ctx)) + [ListHeader(VopCount(e.params, e.policy)), IntT(e.vop)]
  {
    hide EmitAll, VopCount;
    var pre := CallPrefix(e);
    EmitOne(pre[0]);
    EmitOne(pre[1]);
    EmitOne(pre[2]);
    EmitOne(pre[3]);
    EmitOne(pre[4]);
    EmitAllConcat([pre[0]], [pre[1]]);
    EmitAllConcat([pre[0]] + [pre[1]], [pre[2]]);
    EmitAllConcat([pre[0]] + [pre[1]] + [pre[2]], [pre[3]]);
    EmitAllConcat([pre[0]] + [pre[1]] + [pre[2]] + [pre[3]], [pre[4]]);
    assert pre == [pre[0]] + [pre[1]] + [pre[2]] + [pre[3]] + [pre[4]];
  }

  lemma EncodeVop(e: Expr)
    requires e.Call? && WellFormed(e)
    ensures EncodeAll([IntV(e.vop)] + Meanings(e.params) + IntValues(ExtraParams(e.policy))) == VopBody(e)
  {
    var extra := IntValues(ExtraParams(e.policy));
    EncodeAllConcat([IntV(e.vop)] + Meanings(e.params), extra);
    EncodeAllConcat([IntV(e.vop)], Meanings(e.params));
    EncodeSingle(IntV(e.vop));
  }

  lemma EncodeThree(a: Value, b: Value, c: Value)
    ensures EncodeAll([a, b, c]) == Encode(a) + Encode(b) + Encode(c)
  {
    EncodeAllConcat([a] + [b], [c]);
    EncodeAllConcat([a], [b]);
    EncodeSingle(a);
    EncodeSingle(b);
    EncodeSingle(c);
    assert [a, b, c] == [a] + [b] + [c];
  }

  lemma EncodeFive(a: Value, b: Value, c: Value, d: Value, e: Value)
    ensures EncodeAll([a, b, c, d, e]) == Encode(a) + Encode(b) + Encode(c) + Encode(d) + Encode(e)
  {
    EncodeThree(a, b, c);
    EncodeAllConcat([a, b, c], [d]);
    EncodeAllConcat([a, b, c] + [d], [e]);
    EncodeSingle(d);
    EncodeSingle(e);
    assert [a, b, c, d, e] == [a, b, c] + [d] + [e];
  }

  lemma EncodeInContext(ctx: Option<Ctx>, op: Value)
    ensures Encode(InContext(ctx, op)) == ItemTokens(VopStart(ctx)) + Encode(op)
  {
    if ctx.Some? {
      CtxTokensEncode(ctx.value);
      EncodeThree(IntV(CONTEXT_EVAL), CtxValue(ctx.value), op);
      RegroupContext(ListHeader(3), IntT(CONTEXT_EVAL), CtxTokens(ctx.value), Encode(op));
    }
  }

  lemma RegroupContext(l: Token, a: Token, ctx: seq<Token>, op: seq<Token>)
    ensures [l] + ([a] + ctx + op) == [l, a] + ctx + op
  {
  }

  lemma RegroupCall(l: Token, a: Token, b: Token, c: Token, ctx: seq<Token>, h: Token,
                    body: seq<Token>, bin: seq<Token>)
    ensures [l] + ([a] + [b] + [c] + (ctx + ([h] + body)) + bin) == [l, a, b, c] + ctx + [h] + body + bin
  {
  }

  lemma EncodeCallValue(rtype: int, system: int, ctx: Option<Ctx>, items: seq<Value>, bin: Value)
    ensures Encode(List([IntV(CALL), IntV(rtype), IntV(system), InContext(ctx, List(items)), bin]))
         == [ListHeader(5), IntT(CALL), IntT(rtype), IntT(system)]
              + ItemTokens(VopStart(ctx)) + [ListHeader(|items|)] + EncodeAll(items) + Encode(bin)
  {
    var w := InContext(ctx, List(items));
    EncodeFive(IntV(CALL), IntV(rtype), IntV(system), w, bin);
    EncodeInContext(ctx, List(items));
    RegroupCall(ListHeader(5), IntT(CALL), IntT(rtype), IntT(system), ItemTokens(VopStart(ctx)),
                ListHeader(|items|), EncodeAll(items), Encode(bin));
  }

  /** The elements of the operation list of a call. */
  function VopItems(e: Expr): seq<Value>
    requires e.Call? && WellFormed(e)
  {
    [IntV(e.vop)] + Meanings(e.params) + IntValues(ExtraParams(e.policy))
  }

  lemma CallMeaning(e: Expr)
    requires e.Call? && WellFormed(e)
    ensures WellFormed(e.bin)
    ensures Meaning(e) == List([IntV(CALL), IntV(e.rtype), IntV(e.system),
                                InContext(e.ctx, List(VopItems(e))), Meaning(e.bin)])
    ensures EncodeAll(VopItems(e)) == VopBody(e) && |VopItems(e)| == VopCount(e.params, e.policy)
  {
    EncodeVop(e);
  }

  lemma EncodeCall(e: Expr)
    requires e.Call? && WellFormed(e)
    ensures Encode(Meaning(e)) == [ListHeader(5), IntT(CALL), IntT(e.rtype), IntT(e.system)]
              + ItemTokens(VopStart(e.ctx)) + [ListHeader(VopCount(e.params, e.policy))] + VopBody(e)
              + Encode(Meaning(e.bin))
  {
    hide Encode, EncodeAll, Meaning, InContext, ItemTokens, WellFormed, VopItems, VopBody, VopCount;
    CallMeaning(e);
    EncodeCallValue(e.rtype, e.system, e.ctx, VopItems(e), Meaning(e.bin));
  }

  // ---------- the first pass on a raw table ----------

  ghost predicate Same(a: Entry, b: Entry) { a.item == b.item && a.count == b.count }

  ghost predicate CountOk(st: State)
  {
    st.prev == -1 || (0 <= st.prev < |st.table| && st.table[st.prev].count < U32)
  }

  /** From st to st' the entries lo..hi were processed: they now read `res`, the open variadic
      entry gained d elements and the output grew by z bytes. */
  ghost predicate Did(st: State, st': State, lo: nat, hi: nat, res: seq<Entry>, d: int, z: int)
  {
    && lo <= hi <= |st.table| == |st'.table|
    && |res| == hi - lo
    && st.prev == st'.prev < lo
    && CountOk(st)
    && st'.size == st.size + z
    && (forall j :: 0 <= j < |st.table| && (j < lo || hi <= j) && j != st.prev ==> st'.table[j] == st.table[j])
    && (st.prev != -1 ==>
          st'.table[st.prev] == st.table[st.prev].(count := Wrap(st.table[st.prev].count + d)))
    && (forall j :: lo <= j < hi ==> Same(st'.table[j], res[j - lo]))
  }

  lemma DidNothing(st: State, lo: nat)
    requires CountOk(st) && st.prev < lo <= |st.table|
    ensures Did(st, st, lo, lo, [], 0, 0)
  {
  }

  lemma DidThen(st: State, s1: State, s2: State, lo: nat, mid: nat, hi: nat,
                r1: seq<Entry>, r2: seq<Entry>, d1: int, d2: int, z1: int, z2: int)
    requires Did(st, s1, lo, mid, r1, d1, z1) && Did(s1, s2, mid, hi, r2, d2, z2)
    ensures Did(st, s2, lo, hi, r1 + r2, d1 + d2, z1 + z2)
  {
    if st.prev != -1 {
      WrapAdd(st.table[st.prev].count + d1, d2);
    }
    forall j | lo <= j < hi
      ensures Same(s2.table[j], (r1 + r2)[j - lo])
    {
      if j < mid {
        assert s2.table[j] == s1.table[j];
      }
    }
  }

  lemma {:induction false} Pass1Split(sz: Token -> nat, st: State, i: nat, m: nat, n: nat)
    requires i <= m <= n <= |st.table| && Linked(st.table, st.prev, i)
    ensures Pass1(sz, st, i, m).None? ==> Pass1(sz, st, i, n).None?
    ensures Pass1(sz, st, i, m).Some? ==> Pass1(sz, st, i, n) == Pass1(sz, Pass1(sz, st, i, m).value, m, n)
    decreases m - i
  {
    if i < m {
      StepLinked(sz, st, i);
      var r := Step(sz, st, i);
      if r.Some? {
        Pass1Split(sz, r.value, i + 1, m, n);
      }
    }
  }

  /** Entries other than variadic operators and end markers. */
  predicate Simple(e: Entry) { !IsVaEntry(e) && !e.item.EndOfVaArgs? }

  /** Elements an entry adds to the enclosing list, counting the elements it will swallow as negative. */
  function Delta(e: Entry): int { CountedDelta(e) + Adjust(e.item) }

  function Deltas(t: seq<Entry>): int
  {
    if t == [] then 0 else Delta(t[0]) + Deltas(t[1..])
  }

  function EmitBytes(sz: Token -> nat, t: seq<Entry>): nat { Bytes(sz, EmitAll(t)) }

  lemma EmitBytesConcat(sz: Token -> nat, a: seq<Entry>, b: seq<Entry>)
    ensures EmitBytes(sz, a + b) == EmitBytes(sz, a) + EmitBytes(sz, b)
  {
    EmitAllConcat(a, b);
    BytesConcat(sz, EmitAll(a), EmitAll(b));
  }

  lemma BytesOne(sz: Token -> nat, t: Token)
    ensures Bytes(sz, [t]) == sz(t)
  {
    assert Bytes(sz, [t]) == sz(t) + Bytes(sz, []);
  }

  lemma BytesTwo(sz: Token -> nat, t: Token, u: Token)
    ensures Bytes(sz, [t, u]) == sz(t) + sz(u)
  {
    BytesConcat(sz, [t], [u]);
    BytesOne(sz, t);
    BytesOne(sz, u);
    assert [t, u] == [t] + [u];
  }

  /** The first pass reserves for an item what the second pass writes for it. */
  lemma ItemSizeExact(sz: Token -> nat, item: Item, cdt: bool)
    requires ItemSize(sz, item, cdt).Some?
    ensures ItemSize(sz, item, cdt).value == Bytes(sz, ItemTokens(item))
  {
    match item {
      case AsVal(v, _) =>
        if v.List? {
          BytesTwo(sz, ListHeader(2), IntT(QUOTE));
          BytesConcat(sz, [ListHeader(2), IntT(QUOTE)], Encode(v));
        } else {
          assert ItemTokens(item) == Encode(v);
        }
      case VopStart(ctx) =>
        if ctx.Some? {
          BytesTwo(sz, ListHeader(3), IntT(CONTEXT_EVAL));
          BytesConcat(sz, [ListHeader(3), IntT(CONTEXT_EVAL)], CtxTokens(ctx.value));
        }
      case Code(c) => BytesOne(sz, IntT(c));
      case ValGeo(g, _) => BytesOne(sz, ScalarToken(GeoS(g)));
      case ValRtype(i) => BytesOne(sz, IntT(i));
      case ValInt(i) => BytesOne(sz, IntT(i));
      case ValUint(u) => BytesOne(sz, IntT(u));
      case ValFloat(r) => BytesOne(sz, ScalarToken(FloatS(r)));
      case ValBool(b) => BytesOne(sz, ScalarToken(BoolS(b)));
      case ValStr(s) => BytesOne(sz, ScalarToken(StrS(s)));
      case ValBytes(b) => BytesOne(sz, ScalarToken(BytesS(b)));
      case ValRawStr(s) => BytesOne(sz, ScalarToken(RawStrS(s)));
      case ListCrMod(p) => if p.Some? { BytesTwo(sz, IntT(p.value.attributes), IntT(p.value.flags)); }
      case ListMod(p) => if p.Some? { BytesOne(sz, IntT(p.value.flags)); }
      case MapCrMod(p) => if p.Some? { BytesTwo(sz, IntT(p.value.attributes), IntT(p.value.flags)); }
      case MapCr(p) => if p.Some? { BytesOne(sz, IntT(p.value.attributes)); }
      case MapMod(p) => if p.Some? { BytesOne(sz, IntT(p.value.flags)); }
      case _ =>
    }
  }

  lemma EmitSize(sz: Token -> nat, e: Entry, cdt: bool)
    requires ItemSize(sz, e.item, cdt).Some? && (e.item.VopStart? ==> e.count != 0)
    ensures EmitBytes(sz, [e]) == HeaderSize(sz, e) + ItemSize(sz, e.item, cdt).value
  {
    EmitOne(e);
    ItemSizeExact(sz, e.item, cdt);
    BytesOne(sz, ListHeader(e.count));
    if e.item.VopStart? {
      BytesConcat(sz, ItemTokens(e.item), [ListHeader(e.count)]);
    } else if e.count != 0 {
      BytesConcat(sz, [ListHeader(e.count)], ItemTokens(e.item));
    } else {
      assert Emit(e) == ItemTokens(e.item);
    }
  }

  lemma BumpTwice(t: seq<Entry>, prev: int, a: int, b: int)
    requires prev == -1 || 0 <= prev < |t|
    ensures Bump(Bump(t, prev, a), prev, b) == Bump(t, prev, a + b)
  {
    if prev != -1 {
      WrapAdd(t[prev].count + a, b);
    }
  }

  function CountedDelta(e: Entry): int { 1 - (if e.count != 0 then e.count - 1 else 0) }

  lemma CountedIsBump(t: seq<Entry>, prev: int, i: nat)
    requires i < |t| && (prev == -1 || 0 <= prev < i)
    ensures Counted(t, prev, i) == Bump(t, prev, CountedDelta(t[i]))
  {
    if t[i].count != 0 {
      BumpTwice(t, prev, 1, -(t[i].count - 1));
    }
  }

  function Adjust(item: Item): int
  {
    if item.VopStart? then -1 else PolicyAdjust(item)
  }

  lemma BumpZero(t: seq<Entry>, prev: int)
    requires prev == -1 || (0 <= prev < |t| && t[prev].count < U32)
    ensures Bump(t, prev, 0) == t
  {
  }

  lemma SwitchSimple(sz: Token -> nat, t: seq<Entry>, prev: int, i: nat, size: nat)
    requires i < |t| && LinkOk(t, prev, i) && (prev == -1 || t[prev].count < U32) && Simple(t[i])
    ensures Switch(sz, t, prev, i, size) == Some(State(Bump(t, prev, Adjust(t[i].item)), prev, size))
  {
    BumpZero(t, prev);
  }

  /** One iteration on a simple entry. */
  lemma StepSimple(sz: Token -> nat, st: State, i: nat)
    requires i < |st.table| && LinkOk(st.table, st.prev, i) && CountOk(st) && SimpleAt(st.table, i)
    ensures Step(sz, st, i).Some? <==> SizedAt(sz, st.table, i)
    ensures Step(sz, st, i).Some? ==>
              Did(st, Step(sz, st, i).value, i, i + 1, [st.table[i]], Delta(st.table[i]), EmitBytes(sz, [st.table[i]]))
  {
    hide EmitBytes;
    var e := st.table[i];
    var t := Counted(st.table, st.prev, i);
    CountedIsBump(st.table, st.prev, i);
    assert t[i] == e;
    var item := ItemSize(sz, e.item, CdtBefore(st.table, i));
    if item.Some? {
      EmitSize(sz, e, CdtBefore(st.table, i));
      SwitchSimple(sz, t, st.prev, i, st.size + HeaderSize(sz, e) + item.value);
      BumpTwice(st.table, st.prev, CountedDelta(e), Adjust(e.item));
      BumpDid(st, i, Delta(e), EmitBytes(sz, [e]));
    }
  }

  lemma BumpDid(st: State, i: nat, d: int, z: nat)
    requires i < |st.table| && (st.prev == -1 || 0 <= st.prev < i) && CountOk(st)
    ensures Did(st, State(Bump(st.table, st.prev, d), st.prev, st.size + z), i, i + 1, [st.table[i]], d, z)
  {
  }

  lemma LaterUnchanged(sz: Token -> nat, st: State, s1: State, i: nat, n: nat, d: int, z: int)
    requires i < n <= |st.table| && Did(st, s1, i, i + 1, [st.table[i]], d, z)
    requires forall j :: i <= j < n ==> SimpleAt(st.table, j)
    ensures forall j :: i + 1 <= j < n ==> SimpleAt(s1.table, j)
    ensures SizedAt(sz, st.table, i) ==> (AllSized(sz, st.table, i, n) <==> AllSized(sz, s1.table, i + 1, n))
    ensures s1.table[i + 1..n] == st.table[i..n][1..]
  {
    forall j | i < j < n
      ensures SimpleAt(s1.table, j) && SizedAt(sz, s1.table, j) == SizedAt(sz, st.table, j)
    {
      assert SimpleAt(st.table, j) && s1.table[j] == st.table[j];
      assert s1.table[j - 1].item == st.table[j - 1].item;
    }
  }

  /** What the first pass does to a stretch i..n of simple entries. */
  ghost predicate RanSimple(sz: Token -> nat, st: State, i: nat, n: nat, r: Option<State>)
    requires i <= n <= |st.table|
  {
    var t := st.table[i..n];
    if AllSized(sz, st.table, i, n)
    then r.Some? && Did(st, r.value, i, n, t, Deltas(t), EmitBytes(sz, t))
    else r.None?
  }

  lemma SimpleCons(sz: Token -> nat, st: State, s1: State, i: nat, n: nat, r: Option<State>)
    requires i < n <= |st.table| == |s1.table|
    requires Did(st, s1, i, i + 1, [st.table[i]], Delta(st.table[i]), EmitBytes(sz, [st.table[i]]))
    requires AllSized(sz, st.table, i, n) <==> AllSized(sz, s1.table, i + 1, n)
    requires s1.table[i + 1..n] == st.table[i..n][1..]
    requires RanSimple(sz, s1, i + 1, n, r)
    ensures RanSimple(sz, st, i, n, r)
  {
    hide Did, Delta, EmitBytes, AllSized;
    var e := st.table[i];
    var t := st.table[i..n];
    assert t == [e] + t[1..];
    assert Deltas(t) == Delta(e) + Deltas(t[1..]);
    EmitBytesConcat(sz, [e], t[1..]);
    if r.Some? {
      DidThen(st, s1, r.value, i, i + 1, n, [e], t[1..],
              Delta(e), Deltas(t[1..]), EmitBytes(sz, [e]), EmitBytes(sz, t[1..]));
    }
  }

  lemma {:induction false} RunSimple(sz: Token -> nat, st: State, i: nat, n: nat)
    requires i <= n <= |st.table| && Linked(st.table, st.prev, i) && CountOk(st)
    requires forall j :: i <= j < n ==> SimpleAt(st.table, j)
    ensures RanSimple(sz, st, i, n, Pass1(sz, st, i, n))
    decreases n - i
  {
    if i == n {
      DidNothing(st, i);
      assert st.table[i..n] == [];
    } else {
      hide Did, EmitBytes, Delta, Step, AllSized;
      assert SimpleAt(st.table, i);
      StepSimple(sz, st, i);
      Pass1First(sz, st, i, n);
      if Step(sz, st, i).Some? {
        RunSimpleRest(sz, st, Step(sz, st, i).value, i, n);
      } else {
        NotSized(sz, st.table, i, n);
      }
    }
  }

  lemma {:induction false} RunSimpleRest(sz: Token -> nat, st: State, s1: State, i: nat, n: nat)
    requires i < n <= |st.table| == |s1.table| && Linked(s1.table, s1.prev, i + 1)
    requires forall j :: i <= j < n ==> SimpleAt(st.table, j)
    requires SizedAt(sz, st.table, i)
    requires Did(st, s1, i, i + 1, [st.table[i]], Delta(st.table[i]), EmitBytes(sz, [st.table[i]]))
    ensures RanSimple(sz, st, i, n, Pass1(sz, s1, i + 1, n))
    decreases n - i, 0
  {
    hide Did, Step, EmitBytes, Delta, Linked, AllSized, CountOk;
    LaterUnchanged(sz, st, s1, i, n, Delta(st.table[i]), EmitBytes(sz, [st.table[i]]));
    DidCountOk(st, s1, i, i + 1, [st.table[i]], Delta(st.table[i]), EmitBytes(sz, [st.table[i]]));
    RunSimple(sz, s1, i + 1, n);
    SimpleCons(sz, st, s1, i, n, Pass1(sz, s1, i + 1, n));
  }

  lemma DidCountOk(st: State, s1: State, lo: nat, hi: nat, res: seq<Entry>, d: int, z: int)
    requires Did(st, s1, lo, hi, res, d, z)
    ensures CountOk(s1) && |s1.table| == |st.table|
  {
  }

  lemma NotSized(sz: Token -> nat, t: seq<Entry>, i: nat, n: nat)
    requires i < n <= |t| && !SizedAt(sz, t, i)
    ensures !AllSized(sz, t, i, n)
  {
  }

  ghost predicate SimpleAt(t: seq<Entry>, j: int)
    requires 0 <= j < |t|
  {
    Simple(t[j]) && (t[j].item.VopStart? ==> t[j].count != 0)
  }

  ghost predicate SizedAt(sz: Token -> nat, t: seq<Entry>, j: int)
    requires 0 <= j < |t|
  {
    ItemSize(sz, t[j].item, CdtBefore(t, j)).Some?
  }

  ghost predicate AllSized(sz: Token -> nat, t: seq<Entry>, i: nat, n: nat)
    requires n <= |t|
  {
    forall j :: i <= j < n ==> SizedAt(sz, t, j)
  }

  // ---------- the first pass on a whole expression ----------

  ghost predicate At(t: seq<Entry>, i: nat, seg: seq<Entry>)
  {
    i + |seg| <= |t| && t[i..i + |seg|] == seg
  }

  lemma AtSplit(t: seq<Entry>, i: nat, a: seq<Entry>, b: seq<Entry>)
    requires At(t, i, a + b)
    ensures At(t, i, a) && At(t, i + |a|, b)
  {
    assert t[i..i + |a|] == t[i..i + |a + b|][..|a|];
    assert t[i + |a|..i + |a + b|] == t[i..i + |a + b|][|a|..];
  }

  lemma AtKept(st: State, s1: State, lo: nat, hi: nat, res: seq<Entry>, d: int, z: int, k: nat, seg: seq<Entry>)
    requires Did(st, s1, lo, hi, res, d, z) && hi <= k && At(st.table, k, seg)
    ensures At(s1.table, k, seg)
  {
  }

  /** The outcome of running the first pass over lo..lo+|res|. */
  ghost predicate Ran(sz: Token -> nat, st: State, lo: nat, res: seq<Entry>, d: int, ok: bool, r: Option<State>)
  {
    if ok then r.Some? && Did(st, r.value, lo, lo + |res|, res, d, EmitBytes(sz, res)) else r.None?
  }

  lemma RanNothing(sz: Token -> nat, st: State, i: nat)
    requires Ready(st, i, [])
    ensures Ran(sz, st, i, [], 0, true, Some(st))
  {
    DidNothing(st, i);
  }

  /** Ready to run the first pass over the segment at i. */
  ghost predicate Ready(st: State, i: nat, seg: seq<Entry>)
  {
    && At(st.table, i, seg)
    && Linked(st.table, st.prev, i)
    && CountOk(st)
    && |st.table| < U32
  }

  lemma ReadyNext(sz: Token -> nat, st: State, i: nat, a: seq<Entry>, b: seq<Entry>, res: seq<Entry>, d: int)
    requires Ready(st, i, a + b) && |res| == |a|
    requires i + |a| <= |st.table|
    requires Ran(sz, st, i, res, d, true, Pass1(sz, st, i, i + |a|))
    ensures Ready(Pass1(sz, st, i, i + |a|).value, i + |a|, b)
  {
    hide Pass1, Step, EmitBytes;
    AtSplit(st.table, i, a, b);
    var s1 := Pass1(sz, st, i, i + |a|).value;
    AtKept(st, s1, i, i + |a|, res, d, EmitBytes(sz, res), i + |a|, b);
  }

  lemma RanThen(sz: Token -> nat, st: State, i: nat, r1: seq<Entry>, r2: seq<Entry>,
                d1: int, d2: int, ok1: bool, ok2: bool)
    requires i + |r1| + |r2| <= |st.table| && Linked(st.table, st.prev, i)
    requires Ran(sz, st, i, r1, d1, ok1, Pass1(sz, st, i, i + |r1|))
    requires ok1 ==> var s1 := Pass1(sz, st, i, i + |r1|).value;
                     Ran(sz, s1, i + |r1|, r2, d2, ok2, Pass1(sz, s1, i + |r1|, i + |r1| + |r2|))
    ensures Ran(sz, st, i, r1 + r2, d1 + d2, ok1 && ok2, Pass1(sz, st, i, i + |r1| + |r2|))
  {
    hide Did, EmitBytes, Linked, Step, Pass1;
    var m := i + |r1|;
    var n := m + |r2|;
    Pass1Split(sz, st, i, m, n);
    if ok1 && ok2 {
      var s1 := Pass1(sz, st, i, m).value;
      EmitBytesConcat(sz, r1, r2);
      DidThen(st, s1, Pass1(sz, s1, m, n).value, i, m, n, r1, r2, d1, d2, EmitBytes(sz, r1), EmitBytes(sz, r2));
    }
  }

  /** A stretch of simple entries whose sizes exist exactly when `ok`. */
  lemma RanStretch(sz: Token -> nat, st: State, i: nat, seg: seq<Entry>, ok: bool)
    requires Ready(st, i, seg)
    requires forall j :: 0 <= j < |seg| ==> Simple(seg[j]) && (seg[j].item.VopStart? ==> seg[j].count != 0)
    requires AllSized(sz, st.table, i, i + |seg|) <==> ok
    ensures Ran(sz, st, i, seg, Deltas(seg), ok, Pass1(sz, st, i, i + |seg|))
  {
    hide Pass1, Step, EmitBytes, Deltas, Linked, Did;
    forall j | i <= j < i + |seg| ensures SimpleAt(st.table, j) {
      assert st.table[j] == seg[j - i];
    }
    assert st.table[i..i + |seg|] == seg;
    RunSimple(sz, st, i, i + |seg|);
  }

  lemma RanOne(sz: Token -> nat, st: State, i: nat, e: Entry, ok: bool)
    requires Ready(st, i, [e]) && Simple(e) && !e.item.VopStart?
    requires forall cdt :: ItemSize(sz, e.item, cdt).Some? <==> ok
    ensures Ran(sz, st, i, [e], Delta(e), ok, Pass1(sz, st, i, i + 1))
  {
    assert st.table[i] == [e][0];
    assert SizedAt(sz, st.table, i) <==> ok;
    RanStretch(sz, st, i, [e], ok);
    assert Deltas([e]) == Delta(e);
  }

  lemma RanHead(sz: Token -> nat, st: State, i: nat, h: Entry)
    requires Ready(st, i, [h]) && h.item.Code? && !IsVariadic(h.item.code)
    ensures Ran(sz, st, i, [h], Delta(h), true, Pass1(sz, st, i, i + 1))
  {
    RanOne(sz, st, i, h, true);
  }

  lemma RanLeaf(sz: Token -> nat, st: State, i: nat, item: Item)
    requires IsLeaf(item) && Ready(st, i, [Plain(item)])
    ensures Ran(sz, st, i, [Plain(item)], 1, LeafOk(item), Pass1(sz, st, i, i + 1))
  {
    RanOne(sz, st, i, Plain(item), LeafOk(item));
  }

  /** Any expression adds exactly one element to the list around it and fails exactly when it is not compilable. */
  lemma {:induction false} RunExpr(sz: Token -> nat, st: State, i: nat, e: Expr)
    requires WellFormed(e) && Ready(st, i, Flatten(e))
    ensures Ran(sz, st, i, Resolve(e), 1, Compilable(e), Pass1(sz, st, i, i + |Flatten(e)|))
    decreases e, 1
  {
    hide Did, EmitBytes, Linked, CountOk, Step;
    match e {
      case Leaf(item) => RanLeaf(sz, st, i, item);
      case Fixed(_, _) => RunFixed(sz, st, i, e);
      case Variadic(_, _) => RunVariadic(sz, st, i, e);
      case Call(_, _, _, _, _, _, _) => RunCall(sz, st, i, e);
    }
  }

  lemma {:induction false} RunFixed(sz: Token -> nat, st: State, i: nat, e: Expr)
    requires e.Fixed? && WellFormed(e) && Ready(st, i, Flatten(e))
    ensures Ran(sz, st, i, Resolve(e), 1, Compilable(e), Pass1(sz, st, i, i + |Flatten(e)|))
    decreases e, 0, 2
  {
    hide Did, EmitBytes, Linked, CountOk, Step;
    var args := e.args;
    var h := Entry(Code(e.code), 1 + |args|, 0);
    AtSplit(st.table, i, [h], FlattenAll(args));
    RanHead(sz, st, i, h);
    ReadyNext(sz, st, i, [h], FlattenAll(args), [h], Delta(h));
    RunAll(sz, Pass1(sz, st, i, i + 1).value, i + 1, args);
    RanThen(sz, st, i, [h], ResolveAll(args), Delta(h), |args|, true, AllCompilable(args));
  }

  lemma {:induction false} RunVariadic(sz: Token -> nat, st: State, i: nat, e: Expr)
    requires e.Variadic? && WellFormed(e) && Ready(st, i, Flatten(e))
    ensures Ran(sz, st, i, Resolve(e), 1, Compilable(e), Pass1(sz, st, i, i + |Flatten(e)|))
    decreases e, 0, 2
  {
    hide Did, EmitBytes, CountOk, Step, Opened, FlattenAll, ResolveAll, At;
    var s0 := RunVariadicHead(sz, st, i, e.code, e.args);
    RunAll(sz, s0, i + 1, e.args);
    AtEnd(st, i, e.code, e.args);
    RunVariadicEnd(sz, st, s0, i, e.code, e.args, AllCompilable(e.args));
  }

  lemma {:induction false} RunCall(sz: Token -> nat, st: State, i: nat, e: Expr)
    requires e.Call? && WellFormed(e) && Ready(st, i, Flatten(e))
    ensures Ran(sz, st, i, Resolve(e), 1, Compilable(e), Pass1(sz, st, i, i + |Flatten(e)|))
    decreases e, 0, 2
  {
    hide Did, EmitBytes, Linked, CountOk, Step, FlattenAll, ResolveAll, At, PolicyEntries, CallOk;
    var pre := CallPrefix(e);
    var rest := FlattenAll(e.params) + (PolicyEntries(e.policy) + Flatten(e.bin));
    assert Flatten(e) == pre + rest;
    AtSplit(st.table, i, pre, rest);
    RunCallPrefix(sz, st, i, e);
    if CallOk(e) {
      ReadyNext(sz, st, i, pre, rest, pre, Deltas(pre));
      RunCallArgs(sz, Pass1(sz, st, i, i + |pre|).value, i + |pre|, e);
    }
    var res := ResolveAll(e.params) + (PolicyEntries(e.policy) + Resolve(e.bin));
    assert Resolve(e) == pre + res;
    PrefixDelta(e);
    RanThen(sz, st, i, pre, res, Deltas(pre), |e.params| + (|ExtraParams(e.policy)| + 1),
            CallOk(e), AllCompilable(e.params) && Compilable(e.bin));
  }

  lemma PrefixDelta(e: Expr)
    requires e.Call?
    ensures Deltas(CallPrefix(e)) == 1 - VopCount(e.params, e.policy)
  {
    var pre := CallPrefix(e);
    assert Deltas(pre) == Delta(pre[0]) + Deltas(pre[1..]);
    assert pre[1..][1..] == pre[2..] && Deltas(pre[1..]) == Delta(pre[1]) + Deltas(pre[2..]);
    assert pre[2..][1..] == pre[3..] && Deltas(pre[2..]) == Delta(pre[2]) + Deltas(pre[3..]);
    assert pre[3..][1..] == pre[4..] && Deltas(pre[3..]) == Delta(pre[3]) + Deltas(pre[4..]);
    assert pre[4..][1..] == [] && Deltas(pre[4..]) == Delta(pre[4]);
  }

  lemma {:induction false} RunCallArgs(sz: Token -> nat, st: State, i: nat, e: Expr)
    requires e.Call? && WellFormed(e)
    requires Ready(st, i, FlattenAll(e.params) + (PolicyEntries(e.policy) + Flatten(e.bin)))
    ensures var res := ResolveAll(e.params) + (PolicyEntries(e.policy) + Resolve(e.bin));
            i + |res| <= |st.table| &&
            Ran(sz, st, i, res, |e.params| + (|ExtraParams(e.policy)| + 1),
                AllCompilable(e.params) && Compilable(e.bin), Pass1(sz, st, i, i + |res|))
    decreases e, 0, 1
  {
    hide Did, EmitBytes, Linked, CountOk, Step, At, PolicyEntries, Pass1;
    var params, tail := FlattenAll(e.params), PolicyEntries(e.policy) + Flatten(e.bin);
    AtSplit(st.table, i, params, tail);
    RunAll(sz, st, i, e.params);
    if AllCompilable(e.params) {
      ReadyNext(sz, st, i, params, tail, ResolveAll(e.params), |e.params|);
      RunCallTail(sz, Pass1(sz, st, i, i + |params|).value, i + |params|, e);
    }
    RanThen(sz, st, i, ResolveAll(e.params), PolicyEntries(e.policy) + Resolve(e.bin),
            |e.params|, |ExtraParams(e.policy)| + 1, AllCompilable(e.params), Compilable(e.bin));
  }

  lemma {:induction false} RunCallTail(sz: Token -> nat, st: State, i: nat, e: Expr)
    requires e.Call? && WellFormed(e)
    requires Ready(st, i, PolicyEntries(e.policy) + Flatten(e.bin))
    ensures var res := PolicyEntries(e.policy) + Resolve(e.bin);
            i + |res| <= |st.table| &&
            Ran(sz, st, i, res, |ExtraParams(e.policy)| + 1, Compilable(e.bin), Pass1(sz, st, i, i + |res|))
    decreases e, 0, 0
  {
    hide Did, EmitBytes, Linked, CountOk, Step, At, Pass1;
    var pol := PolicyEntries(e.policy);
    AtSplit(st.table, i, pol, Flatten(e.bin));
    RunPolicy(sz, st, i, e.policy);
    ReadyNext(sz, st, i, pol, Flatten(e.bin), pol, |ExtraParams(e.policy)|);
    RunExpr(sz, Pass1(sz, st, i, i + |pol|).value, i + |pol|, e.bin);
    RanThen(sz, st, i, pol, Resolve(e.bin), |ExtraParams(e.policy)|, 1, true, Compilable(e.bin));
  }

  lemma RunPolicy(sz: Token -> nat, st: State, i: nat, policy: Option<Item>)
    requires policy.Some? ==> IsPolicy(policy.value)
    requires Ready(st, i, PolicyEntries(policy))
    ensures Ran(sz, st, i, PolicyEntries(policy), |ExtraParams(policy)|, true,
                Pass1(sz, st, i, i + |PolicyEntries(policy)|))
  {
    hide Did, EmitBytes, Linked, CountOk, Step;
    if policy.Some? {
      PolicyRuns(sz, policy.value);
      RanOne(sz, st, i, Plain(policy.value), true);
    } else {
      RanNothing(sz, st, i);
    }
  }

  lemma PolicyRuns(sz: Token -> nat, item: Item)
    requires IsPolicy(item)
    ensures Delta(Plain(item)) == |PolicyInts(item)|
    ensures forall cdt :: ItemSize(sz, item, cdt).Some?
  {
  }

  lemma RunCallPrefix(sz: Token -> nat, st: State, i: nat, e: Expr)
    requires e.Call? && Ready(st, i, CallPrefix(e))
    ensures Ran(sz, st, i, CallPrefix(e), Deltas(CallPrefix(e)), CallOk(e), Pass1(sz, st, i, i + 5))
  {
    hide Did, EmitBytes, Linked, CountOk, Step;
    PrefixSized(sz, st.table, i, e);
    RanStretch(sz, st, i, CallPrefix(e), CallOk(e));
  }

  lemma PrefixSized(sz: Token -> nat, t: seq<Entry>, i: nat, e: Expr)
    requires e.Call? && At(t, i, CallPrefix(e))
    ensures AllSized(sz, t, i, i + 5) <==> CallOk(e)
  {
    var pre := CallPrefix(e);
    assert t[i] == pre[0] && t[i + 1] == pre[1] && t[i + 2] == pre[2] && t[i + 3] == pre[3] && t[i + 4] == pre[4];
    assert CdtBefore(t, i + 3) == IsCdt(e.system);
    assert SizedAt(sz, t, i) && SizedAt(sz, t, i + 2) && SizedAt(sz, t, i + 4);
    assert SizedAt(sz, t, i + 1) <==> e.rtype != TYPE_ERROR;
    assert SizedAt(sz, t, i + 3) <==> (e.ctx.Some? ==> CtxAccepted(e.ctx.value, IsCdt(e.system)));
  }

  /** The variadic entry at i has just been passed: it is the innermost open one, with no elements yet. */
  ghost predicate Opened(sz: Token -> nat, st: State, s0: State, i: nat, code: nat)
  {
    && i < |st.table| && (st.prev == -1 || 0 <= st.prev < i)
    && s0.prev == i && s0.size == st.size + sz(IntT(code))
    && s0.table == Bump(st.table, st.prev, 1)[i := Entry(Code(code), 0, st.prev)]
  }

  lemma RunVariadicHead(sz: Token -> nat, st: State, i: nat, code: nat, args: seq<Expr>) returns (s0: State)
    requires IsVariadic(code) && Ready(st, i, Flatten(Variadic(code, args)))
    ensures Step(sz, st, i) == Some(s0)
    ensures Ready(s0, i + 1, FlattenAll(args))
    ensures Opened(sz, st, s0, i, code)
  {
    var h, body := [Plain(Code(code))], FlattenAll(args) + [Plain(EndOfVaArgs)];
    assert Flatten(Variadic(code, args)) == h + body;
    AtSplit(st.table, i, h, body);
    AtSplit(st.table, i + 1, FlattenAll(args), [Plain(EndOfVaArgs)]);
    assert st.table[i] == h[0];
    StepLinked(sz, st, i);
    s0 := Step(sz, st, i).value;
    assert At(s0.table, i + 1, FlattenAll(args));
  }

  /** The end marker turns the number of arguments counted so far into the count of the list. */
  lemma RunVariadicEnd(sz: Token -> nat, st: State, s0: State, i: nat, code: nat, args: seq<Expr>, ok: bool)
    requires Linked(st.table, st.prev, i) && CountOk(st) && i < |st.table| && Step(sz, st, i) == Some(s0)
    requires Opened(sz, st, s0, i, code) && Linked(s0.table, s0.prev, i + 1)
    requires i + 1 + |FlattenAll(args)| < |st.table| < U32 && |st.table| == |s0.table|
    requires st.table[i + 1 + |FlattenAll(args)|] == Plain(EndOfVaArgs)
    requires Ran(sz, s0, i + 1, ResolveAll(args), |args|, ok, Pass1(sz, s0, i + 1, i + 1 + |FlattenAll(args)|))
    ensures Ran(sz, st, i, Resolve(Variadic(code, args)), 1, ok, Pass1(sz, st, i, i + 2 + |FlattenAll(args)|))
  {
    hide Did, EmitBytes, Step, CountOk, Opened, FlattenAll, ResolveAll;
    var m := i + 1 + |FlattenAll(args)|;
    Pass1First(sz, st, i, m + 1);
    Pass1Split(sz, s0, i + 1, m, m + 1);
    if ok {
      var s1 := Pass1(sz, s0, i + 1, m).value;
      EndStep(sz, st, s0, s1, i, code, args);
      VariadicDid(sz, st, s0, s1, i, code, args);
      Pass1First(sz, s1, m, m + 1);
      Pass1None(sz, Closed(sz, s1, i, |args|), m + 1);
    }
  }

  lemma Pass1First(sz: Token -> nat, st: State, i: nat, n: nat)
    requires i < n <= |st.table| && Linked(st.table, st.prev, i)
    ensures Step(sz, st, i).Some? ==> Linked(Step(sz, st, i).value.table, Step(sz, st, i).value.prev, i + 1)
    ensures Pass1(sz, st, i, n) ==
            if Step(sz, st, i).None? then None else Pass1(sz, Step(sz, st, i).value, i + 1, n)
  {
    StepLinked(sz, st, i);
  }

  lemma Pass1None(sz: Token -> nat, st: State, n: nat)
    requires n <= |st.table| && Linked(st.table, st.prev, n)
    ensures Pass1(sz, st, n, n) == Some(st)
  {
  }

  /** The state once the end marker of the variadic entry at i has been passed. */
  function Closed(sz: Token -> nat, s1: State, i: nat, n: nat): State
    requires i < |s1.table|
  {
    State(s1.table[i := s1.table[i].(count := 1 + n)], s1.table[i].prev, s1.size + sz(ListHeader(1 + n)))
  }

  lemma AtEnd(st: State, i: nat, code: nat, args: seq<Expr>)
    requires At(st.table, i, Flatten(Variadic(code, args)))
    ensures var m := i + 1 + |FlattenAll(args)|;
            m < |st.table| && st.table[i] == Plain(Code(code)) && st.table[m] == Plain(EndOfVaArgs)
  {
    var f := Flatten(Variadic(code, args));
    var m := i + 1 + |FlattenAll(args)|;
    assert st.table[i] == f[0];
    assert st.table[m] == f[m - i];
  }

  lemma EndBytes(sz: Token -> nat)
    ensures EmitBytes(sz, [Plain(EndOfVaArgs)]) == 0
  {
    EmitOne(Plain(EndOfVaArgs));
  }

  lemma HeadBytes(sz: Token -> nat, code: nat, n: nat)
    ensures EmitBytes(sz, [Entry(Code(code), 1 + n, 0)]) == sz(ListHeader(1 + n)) + sz(IntT(code))
  {
    EmitOne(Entry(Code(code), 1 + n, 0));
    BytesTwo(sz, ListHeader(1 + n), IntT(code));
  }

  lemma EmitBytes3(sz: Token -> nat, a: seq<Entry>, b: seq<Entry>, c: seq<Entry>)
    ensures EmitBytes(sz, a + b + c) == EmitBytes(sz, a) + EmitBytes(sz, b) + EmitBytes(sz, c)
  {
    EmitBytesConcat(sz, a + b, c);
    EmitBytesConcat(sz, a, b);
  }

  lemma VariadicBytes(sz: Token -> nat, code: nat, args: seq<Expr>)
    ensures EmitBytes(sz, Resolve(Variadic(code, args)))
         == sz(IntT(code)) + EmitBytes(sz, ResolveAll(args)) + sz(ListHeader(1 + |args|))
  {
    hide EmitBytes, ResolveAll;
    EmitBytes3(sz, [Entry(Code(code), 1 + |args|, 0)], ResolveAll(args), [Plain(EndOfVaArgs)]);
    HeadBytes(sz, code, |args|);
    EndBytes(sz);
  }

  /** Everything between opening and closing a variadic entry has been processed. */
  ghost predicate ArgsDone(sz: Token -> nat, st: State, s0: State, s1: State, i: nat, code: nat, args: seq<Expr>)
  {
    var m := i + 1 + |FlattenAll(args)|;
    && Opened(sz, st, s0, i, code)
    && m < |st.table| < U32
    && st.table[m] == Plain(EndOfVaArgs)
    && Did(s0, s1, i + 1, m, ResolveAll(args), |args|, EmitBytes(sz, ResolveAll(args)))
  }

  lemma VariadicDid(sz: Token -> nat, st: State, s0: State, s1: State, i: nat, code: nat, args: seq<Expr>)
    requires CountOk(st) && ArgsDone(sz, st, s0, s1, i, code, args)
    ensures i < |s1.table|
    ensures Did(st, Closed(sz, s1, i, |args|), i, i + 2 + |FlattenAll(args)|, Resolve(Variadic(code, args)), 1,
                EmitBytes(sz, Resolve(Variadic(code, args))))
  {
    hide EmitBytes, FlattenAll, ResolveAll;
    var m := i + 1 + |FlattenAll(args)|;
    var r := Closed(sz, s1, i, |args|);
    VariadicBytes(sz, code, args);
    assert s1.table[m] == st.table[m];
    SameThree(r.table, i, m, Entry(Code(code), 1 + |args|, 0), ResolveAll(args), Plain(EndOfVaArgs));
  }

  lemma SameThree(t: seq<Entry>, i: nat, m: nat, head: Entry, mid: seq<Entry>, last: Entry)
    requires m == i + 1 + |mid| < |t| && Same(t[i], head) && Same(t[m], last)
    requires forall j :: i + 1 <= j < m ==> Same(t[j], mid[j - (i + 1)])
    ensures forall j :: i <= j < m + 1 ==> Same(t[j], ([head] + mid + [last])[j - i])
  {
    var res := [head] + mid + [last];
    forall j | i <= j < m + 1 ensures Same(t[j], res[j - i]) {
      if i < j < m { assert res[j - i] == mid[j - (i + 1)]; }
    }
  }

  lemma EndStep(sz: Token -> nat, st: State, s0: State, s1: State, i: nat, code: nat, args: seq<Expr>)
    requires ArgsDone(sz, st, s0, s1, i, code, args)
    requires LinkOk(s1.table, s1.prev, i + 1 + |FlattenAll(args)|)
    ensures Step(sz, s1, i + 1 + |FlattenAll(args)|) == Some(Closed(sz, s1, i, |args|))
  {
    EndFacts(sz, st, s0, s1, i, code, args);
    hide Did, ArgsDone, EmitBytes, FlattenAll, Step;
    CloseStep(sz, s1, i, i + 1 + |FlattenAll(args)|, |args|);
  }

  lemma CloseStep(sz: Token -> nat, s1: State, i: nat, m: nat, n: nat)
    requires m < |s1.table| && LinkOk(s1.table, s1.prev, m) && s1.prev == i && n + 1 < U32
    requires s1.table[m] == Plain(EndOfVaArgs) && s1.table[i].count == Wrap(n)
    ensures Step(sz, s1, m) == Some(Closed(sz, s1, i, n))
  {
    WrapSmall(n);
    WrapSmall(n + 1);
    assert Counted(s1.table, i, m) == s1.table[i := s1.table[i].(count := n + 1)];
  }

  lemma EndFacts(sz: Token -> nat, st: State, s0: State, s1: State, i: nat, code: nat, args: seq<Expr>)
    requires ArgsDone(sz, st, s0, s1, i, code, args)
    ensures s1.prev == i < |s1.table| == |st.table| && |args| + 1 < U32
    ensures s1.table[i].count == Wrap(|args|)
    ensures s1.table[i + 1 + |FlattenAll(args)|] == Plain(EndOfVaArgs)
  {
    hide EmitBytes, FlattenAll, ResolveAll;
  }

  lemma {:induction false} RunAll(sz: Token -> nat, st: State, i: nat, es: seq<Expr>)
    requires AllWellFormed(es) && Ready(st, i, FlattenAll(es))
    ensures Ran(sz, st, i, ResolveAll(es), |es|, AllCompilable(es), Pass1(sz, st, i, i + |FlattenAll(es)|))
    decreases es, 0
  {
    hide Did, EmitBytes, CountOk, Step, Linked, Resolve, Flatten;
    if es == [] {
      RanNothing(sz, st, i);
    } else {
      AtSplit(st.table, i, Flatten(es[0]), FlattenAll(es[1..]));
      RunExpr(sz, st, i, es[0]);
      if Compilable(es[0]) {
        ReadyNext(sz, st, i, Flatten(es[0]), FlattenAll(es[1..]), Resolve(es[0]), 1);
        RunAll(sz, Pass1(sz, st, i, i + |Flatten(es[0])|).value, i + |Flatten(es[0])|, es[1..]);
      }
      RanThen(sz, st, i, Resolve(es[0]), ResolveAll(es[1..]), 1, |es| - 1, Compilable(es[0]), AllCompilable(es[1..]));
    }
  }

  // ---------- main results ----------

  /** Compiling the table of an expression emits exactly the encoding of the list the expression means and allocates its
      size modulo 2^32, or fails exactly when the expression is not compilable; `sz` is any measure of tokens. */
  lemma CompileCorrect(sz: Token -> nat, e: Expr)
    requires WellFormed(e) && |Flatten(e)| <= MAX_ENTRIES
    ensures Compiled(sz, Flatten(e)) ==
            if Compilable(e)
            then Some(Packed(Encode(Meaning(e)), Wrap(Bytes(sz, Encode(Meaning(e))))))
            else None
  {
    hide Did, EmitBytes, Step, Resolve;
    var t := Flatten(e);
    var st := State(t, -1, 0);
    assert t[0..|t|] == t;
    RunExpr(sz, st, 0, e);
    if Compilable(e) {
      var s1 := Pass1(sz, st, 0, |t|).value;
      DidWhole(st, s1, Resolve(e), 1, EmitBytes(sz, Resolve(e)));
      EmitSame(s1.table, Resolve(e));
      EmitResolved(e);
      EmitBytesIs(sz, Resolve(e));
    }
  }

  lemma DidWhole(st: State, s1: State, res: seq<Entry>, d: int, z: int)
    requires |res| == |st.table| && Did(st, s1, 0, |res|, res, d, z)
    ensures |s1.table| == |res| && s1.size == st.size + z
    ensures forall j :: 0 <= j < |res| ==> Same(s1.table[j], res[j])
  {
  }

  lemma EmitBytesIs(sz: Token -> nat, t: seq<Entry>)
    ensures EmitBytes(sz, t) == Bytes(sz, EmitAll(t))
  {
  }

  /** The buffer has exactly the size of the encoding if and only if that is below 4 GiB; otherwise it is smaller. */
  lemma BufferExactIff(sz: Token -> nat, e: Expr)
    requires WellFormed(e) && |Flatten(e)| <= MAX_ENTRIES && Compilable(e)
    ensures var r := Compiled(sz, Flatten(e));
            var need := Bytes(sz, Encode(Meaning(e)));
            && r.Some? && r.value.size <= need
            && (r.value.size == need <==> need < U32)
  {
    CompileCorrect(sz, e);
    hide Compiled, Bytes, Encode;
    WrapBelow(Bytes(sz, Encode(Meaning(e))));
  }

  const AND: nat := 16

  /** Both halves of a conjunction are the same blob. */
  function TwoBlobs(b: seq<bv8>): Expr { Variadic(AND, [Leaf(ValBytes(b)), Leaf(ValBytes(b))]) }

  lemma TwoBlobsCompilable(b: seq<bv8>)
    ensures var e := TwoBlobs(b);
            && WellFormed(e) && Compilable(e) && |Flatten(e)| == 4
            && Meaning(e) == List([IntV(AND), Scalar(BytesS(b)), Scalar(BytesS(b))])
  {
    var x := Leaf(ValBytes(b));
    assert [x, x][1..] == [x] && [x][1..] == [];
    assert WellFormed(x) && Compilable(x);
    assert AllWellFormed([]) && AllCompilable([]);
    assert AllWellFormed([x]) && AllCompilable([x]);
    assert Meanings([x]) == [Meaning(x)] && Meanings([x, x]) == [Meaning(x), Meaning(x)];
    assert FlattenAll([x]) == [Plain(ValBytes(b))] && FlattenAll([x, x]) == [Plain(ValBytes(b)), Plain(ValBytes(b))];
  }

  /** Two blobs of 2 GiB or more: for every measure that gives a blob at least its length the buffer is too small. */
  lemma BufferTooSmall(sz: Token -> nat, b: seq<bv8>)
    requires |b| >= 0x8000_0000 && sz(ScalarToken(BytesS(b))) >= |b|
    ensures var e := TwoBlobs(b);
            && WellFormed(e) && Compilable(e) && Compiled(sz, Flatten(e)).Some?
            && Compiled(sz, Flatten(e)).value.size < Bytes(sz, Encode(Meaning(e)))
  {
    var e := TwoBlobs(b);
    TwoBlobsCompilable(b);
    EncodeThree(IntV(AND), Scalar(BytesS(b)), Scalar(BytesS(b)));
    var t := ScalarToken(BytesS(b));
    assert Encode(Meaning(e)) == [ListHeader(3), IntT(AND)] + [t, t];
    BytesConcat(sz, [ListHeader(3), IntT(AND)], [t, t]);
    BytesTwo(sz, t, t);
    hide TwoBlobs, Compiled, Bytes, Encode, Meaning;
    BufferExactIff(sz, e);
  }

  lemma WrapBelow(x: nat)
    ensures Wrap(x) <= x && (Wrap(x) == x <==> x < U32)
  {
  }

  /** The list of a call that a reader finds, without its context if there is one. */
  function OperationOf(v: Value, inContext: bool): (op: Value)
    requires v.List? && |v.items| == 5
    requires inContext ==> v.items[3].List? && |v.items[3].items| == 3
  {
    if inContext then v.items[3].items[2] else v.items[3]
  }

  /** What follows the parameters of a call on the wire. */
  predicate PolicyFollows(policy: Option<Item>, tail: seq<Value>)
  {
    match policy
    case Some(ListCrMod(Some(p))) => tail == [IntV(p.attributes), IntV(p.flags)]
    case Some(MapCrMod(Some(p))) => tail == [IntV(p.attributes), IntV(p.flags)]
    case Some(MapCr(Some(p))) => tail == [IntV(p.attributes)]
    case Some(ListMod(Some(p))) => tail == [IntV(p.flags)]
    case Some(MapMod(Some(p))) => tail == [IntV(p.flags)]
    case _ => tail == []
  }

  /** A context on the wire: types and values of the levels alternate, in order. */
  predicate LevelsFollow(levels: seq<CtxItem>, vs: seq<Value>)
  {
    |vs| == 2 * |levels|
    && forall j :: 0 <= j < |levels| ==> vs[2 * j] == IntV(levels[j].kind) && vs[2 * j + 1] == levels[j].value
  }

  lemma {:induction false} LevelsAt(items: seq<CtxItem>)
    ensures LevelsFollow(items, CtxItemsValues(items))
  {
    if items != [] {
      LevelsAt(items[1..]);
      var vs, rest := CtxItemsValues(items), CtxItemsValues(items[1..]);
      forall j | 0 <= j < |items|
        ensures vs[2 * j] == IntV(items[j].kind) && vs[2 * j + 1] == items[j].value
      {
        if j > 0 {
          assert vs[2 * j] == rest[2 * (j - 1)] && vs[2 * j + 1] == rest[2 * (j - 1) + 1];
          assert items[1..][j - 1] == items[j];
        }
      }
    }
  }

  lemma PolicyValues(policy: Option<Item>)
    ensures PolicyFollows(policy, IntValues(ExtraParams(policy)))
  {
    var ns := ExtraParams(policy);
    if |ns| == 1 {
      assert ns[1..] == [];
    } else if |ns| == 2 {
      assert ns[1..] == [ns[1]] && ns[1..][1..] == [];
    }
  }

  /** The list a reader finds for a call: return type and system, the context with its levels in order, the operation,
      the meanings of the parameters, and behind them what the policy stands for. */
  predicate CallFound(e: Expr, v: Value)
    requires e.Call? && WellFormed(e)
  {
    && v.List? && |v.items| == 5
    && v.items[0] == IntV(127) && v.items[1] == IntV(e.rtype) && v.items[2] == IntV(e.system)
    && v.items[4] == Meaning(e.bin)
    && (e.ctx.Some? ==> && v.items[3].List? && |v.items[3].items| == 3
                        && v.items[3].items[0] == IntV(0xff) && v.items[3].items[1].List?
                        && LevelsFollow(e.ctx.value.items, v.items[3].items[1].items))
    && OperationFound(e, OperationOf(v, e.ctx.Some?))
  }

  predicate OperationFound(e: Expr, op: Value)
    requires e.Call? && WellFormed(e)
  {
    && op.List? && |op.items| > |e.params| && op.items[0] == IntV(e.vop)
    && op.items[1..1 + |e.params|] == Meanings(e.params)
    && PolicyFollows(e.policy, op.items[1 + |e.params|..])
  }

  lemma OperationIs(e: Expr)
    requires e.Call? && WellFormed(e)
    ensures OperationFound(e, List(VopItems(e)))
  {
    PolicyValues(e.policy);
    hide PolicyFollows, ExtraParams;
    var items := VopItems(e);
    assert items[1..1 + |e.params|] == Meanings(e.params);
    assert items[1 + |e.params|..] == IntValues(ExtraParams(e.policy));
  }

  lemma MeaningFound(e: Expr)
    requires e.Call? && WellFormed(e)
    ensures CallFound(e, Meaning(e))
  {
    hide Meaning, OperationFound, LevelsFollow, CtxItemsValues, VopItems;
    CallMeaning(e);
    OperationIs(e);
    if e.ctx.Some? { LevelsAt(e.ctx.value.items); }
  }

  /** A reader of a compiled call finds all that. */
  lemma CallOnWire(sz: Token -> nat, e: Expr)
    requires e.Call? && WellFormed(e) && |Flatten(e)| <= MAX_ENTRIES && Compilable(e)
    ensures var r := Compiled(sz, Flatten(e));
            r.Some? && Parse(r.value.tokens).Some? && CallFound(e, Parse(r.value.tokens).value.0)
  {
    hide Compiled, Parse, CallFound;
    CompiledReadsBack(sz, e);
    MeaningFound(e);
  }

  /** AND, OR, EXCLUSIVE, ADD, SUB, MUL, DIV, INT_AND, INT_OR, INT_XOR, MIN, MAX, COND and LET compile, with any number
      of arguments, to the list of the operator and the arguments. */
  lemma VariadicOnWire(sz: Token -> nat, code: nat, args: seq<Expr>)
    requires code in {16, 17, 19, 20, 21, 22, 23, 32, 33, 34, 50, 51, 123, 125}
    requires AllWellFormed(args) && AllCompilable(args) && |Flatten(Variadic(code, args))| <= MAX_ENTRIES
    ensures var r := Compiled(sz, Flatten(Variadic(code, args)));
            r.Some? && Parse(r.value.tokens) == Some((List([IntV(code)] + Meanings(args)), []))
  {
    hide Compiled, Parse;
    CompiledReadsBack(sz, Variadic(code, args));
  }

  /** A MessagePack reader gets the nested list back from the compiled expression. */
  lemma CompiledReadsBack(sz: Token -> nat, e: Expr)
    requires WellFormed(e) && |Flatten(e)| <= MAX_ENTRIES && Compilable(e)
    ensures var r := Compiled(sz, Flatten(e));
            r.Some? && Parse(r.value.tokens) == Some((Meaning(e), []))
  {
    CompileCorrect(sz, e);
    ParseEncode(Meaning(e), []);
    assert Encode(Meaning(e)) + [] == Encode(Meaning(e));
  }

  // ---------- let ----------

  lemma {:induction false} MeaningsAt(es: seq<Expr>, i: nat)
    requires AllWellFormed(es) && i < |es|
    ensures WellFormed(es[i]) && Meanings(es)[i] == Meaning(es[i])
  {
    if i > 0 { MeaningsAt(es[1..], i - 1); }
  }

  lemma {:induction false} LetArgsAt(defs: seq<Def>, i: nat)
    requires i < |defs|
    ensures LetArgs(defs)[2 * i] == Leaf(ValRawStr(defs[i].name)) && LetArgs(defs)[2 * i + 1] == defs[i].body
  {
    if i > 0 { LetArgsAt(defs[1..], i - 1); }
  }

  /** A `let` is one list: its code, a name and a meaning for each definition, and the meaning of its body. */
  lemma LetMeaning(defs: seq<Def>, body: Expr, i: nat)
    requires WellFormed(Let(defs, body)) && i < |defs|
    ensures WellFormed(body) && WellFormed(defs[i].body)
    ensures var m := Meaning(Let(defs, body));
            && m.List? && |m.items| == 2 * |defs| + 2
            && m.items[2 * i + 1] == Scalar(RawStrS(defs[i].name)) && m.items[2 * i + 2] == Meaning(defs[i].body)
            && m.items[2 * |defs| + 1] == Meaning(body)
  {
    var args := LetArgs(defs) + [body];
    LetArgsAt(defs, i);
    MeaningsAt(args, 2 * i);
    MeaningsAt(args, 2 * i + 1);
    MeaningsAt(args, 2 * |defs|);
  }
}
