/** Expression trees, the flat entry tables the `as_exp_*` macros expand to, and the nested
list each tree stands for on the wire. */
module ExpTable {
  import opened Prelude
  import opened ExpWire

  // Operation codes that the compiler or the macros single out.
  const COND: nat := 123
  const LET: nat := 125
  const QUOTE: nat := 126
  const CALL: nat := 127
  const CONTEXT_EVAL: nat := 0xff
  const CALL_CDT: int := 0
  const MODIFY_LOCAL: int := 0x40
  const TYPE_ERROR: int := 11

  /** The macros that take any number of arguments and close them with an end marker: AND, OR, EXCLUSIVE, ADD, SUB, MUL,
      DIV, INT_AND, INT_OR, INT_XOR, MIN, MAX, COND, LET. */
  predicate IsVariadic(code: nat)
  {
    code in {16, 17, 19, 20, 21, 22, 23, 32, 33, 34, 50, 51, COND, LET}
  }

  datatype CtxItem = CtxItem(kind: nat, value: Value)

  /** A CDT context; `packable` is false when one of its values cannot be serialized. */
  datatype Ctx = Ctx(items: seq<CtxItem>, packable: bool)

  datatype Policy = Policy(attributes: nat, flags: nat)

  /** The operation and the payload union of one entry. */
  datatype Item =
    | Code(code: nat)
    | AsVal(val: Value, serializable: bool)
    | ValGeo(geo: string, serializable: bool)
    | ValRtype(rtype: int)
    | ValInt(i: int)
    | ValUint(u: nat)
    | ValFloat(r: real)
    | ValBool(b: bool)
    | ValStr(s: string)
    | ValBytes(bytes: seq<bv8>)
    | ValRawStr(s: string)
    | VopStart(ctx: Option<Ctx>)
    | ListCrMod(pol: Option<Policy>)
    | ListMod(pol: Option<Policy>)
    | MapCrMod(pol: Option<Policy>)
    | MapCr(pol: Option<Policy>)
    | MapMod(pol: Option<Policy>)
    | Merge(packed: Value)
    | EndOfVaArgs

  /** One row of the table; `count` is an unsigned 32 bit field. */
  datatype Entry = Entry(item: Item, count: nat, prev: int)

  function Plain(item: Item): Entry { Entry(item, 0, 0) }

  predicate IsPolicy(item: Item)
  {
    item.ListCrMod? || item.ListMod? || item.MapCrMod? || item.MapCr? || item.MapMod?
  }

  /** Items that are a complete expression on their own. */
  predicate IsLeaf(item: Item)
  {
    item.AsVal? || item.ValGeo? || item.ValInt? || item.ValUint? || item.ValFloat? || item.ValBool? ||
    item.ValStr? || item.ValBytes? || item.ValRawStr? || item.Merge?
  }

  // ---------- expression trees ----------

  datatype Expr =
    | Leaf(item: Item)
    | Fixed(code: nat, args: seq<Expr>)
    | Variadic(code: nat, args: seq<Expr>)
    | Call(rtype: int, system: int, ctx: Option<Ctx>, vop: int,
           params: seq<Expr>, policy: Option<Item>, bin: Expr)

  /** What the macros can build. */
  predicate WellFormed(e: Expr)
    decreases e, 1
  {
    match e
    case Leaf(item) => IsLeaf(item)
    case Fixed(code, args) => !IsVariadic(code) && code != CALL && AllWellFormed(args)
    case Variadic(code, args) => IsVariadic(code) && AllWellFormed(args)
    case Call(_, _, _, _, params, policy, bin) =>
      && AllWellFormed(params)
      && (policy.Some? ==> IsPolicy(policy.value))
      && WellFormed(bin)
  }

  predicate AllWellFormed(es: seq<Expr>)
    decreases es, 0
  {
    es == [] || (WellFormed(es[0]) && AllWellFormed(es[1..]))
  }

  datatype Def = Def(name: string, body: Expr)

  /** `as_exp_let`: each `as_exp_def` splices a name and an expression into the arguments. */
  function Let(defs: seq<Def>, body: Expr): Expr
  {
    Variadic(LET, LetArgs(defs) + [body])
  }

  function LetArgs(defs: seq<Def>): (args: seq<Expr>)
    ensures |args| == 2 * |defs|
  {
    if defs == [] then []
    else [Leaf(ValRawStr(defs[0].name)), defs[0].body] + LetArgs(defs[1..])
  }

  // ---------- the macro expansion ----------

  /** The parameters a policy stands for, in order: none when the policy is NULL. */
  function PolicyInts(item: Item): seq<nat>
  {
    match item
    case ListCrMod(Some(p)) => [p.attributes, p.flags]
    case ListMod(Some(p)) => [p.flags]
    case MapCrMod(Some(p)) => [p.attributes, p.flags]
    case MapCr(Some(p)) => [p.attributes]
    case MapMod(Some(p)) => [p.flags]
    case _ => []
  }

  function ExtraParams(policy: Option<Item>): seq<nat>
  {
    if policy.Some? then PolicyInts(policy.value) else []
  }

  function PolicyEntries(policy: Option<Item>): seq<Entry>
  {
    if policy.Some? then [Plain(policy.value)] else []
  }

  function VopCount(params: seq<Expr>, policy: Option<Item>): nat
  {
    1 + |params| + |ExtraParams(policy)|
  }

  function CallPrefix(e: Expr): seq<Entry>
    requires e.Call?
  {
    [Entry(Code(CALL), 5, 0), Plain(ValRtype(e.rtype)), Plain(ValInt(e.system)),
     Entry(VopStart(e.ctx), VopCount(e.params, e.policy), 0), Plain(ValInt(e.vop))]
  }

  /** The table a macro call expands to. */
  function Flatten(e: Expr): (t: seq<Entry>)
    ensures t != []
    decreases e, 1
  {
    match e
    case Leaf(item) => [Plain(item)]
    case Fixed(code, args) => [Entry(Code(code), 1 + |args|, 0)] + FlattenAll(args)
    case Variadic(code, args) => [Plain(Code(code))] + FlattenAll(args) + [Plain(EndOfVaArgs)]
    case Call(_, _, _, _, params, policy, bin) =>
      CallPrefix(e) + FlattenAll(params) + PolicyEntries(policy) + Flatten(bin)
  }

  function FlattenAll(es: seq<Expr>): (t: seq<Entry>)
    ensures |t| >= |es|
    decreases es, 0
  {
    if es == [] then [] else Flatten(es[0]) + FlattenAll(es[1..])
  }

  // ---------- the meaning of a tree ----------

  function LeafValue(item: Item): Value
    requires IsLeaf(item)
  {
    match item
    case AsVal(v, _) => if v.List? then List([IntV(QUOTE), v]) else v
    case ValGeo(g, _) => Scalar(GeoS(g))
    case ValInt(i) => IntV(i)
    case ValUint(u) => IntV(u)
    case ValFloat(r) => Scalar(FloatS(r))
    case ValBool(b) => Scalar(BoolS(b))
    case ValStr(s) => Scalar(StrS(s))
    case ValBytes(b) => Scalar(BytesS(b))
    case ValRawStr(s) => Scalar(RawStrS(s))
    case Merge(v) => v
  }

  function CtxItemsValues(items: seq<CtxItem>): (vs: seq<Value>)
    ensures |vs| == 2 * |items|
  {
    if items == [] then []
    else [IntV(items[0].kind), items[0].value] + CtxItemsValues(items[1..])
  }

  function CtxValue(ctx: Ctx): Value { List(CtxItemsValues(ctx.items)) }

  function IntValues(ns: seq<nat>): (vs: seq<Value>)
    ensures |vs| == |ns|
  {
    if ns == [] then [] else [IntV(ns[0])] + IntValues(ns[1..])
  }

  /** Wraps the operation list of a call in its CDT context, when there is one. */
  function InContext(ctx: Option<Ctx>, vop: Value): Value
  {
    if ctx.None? then vop else List([IntV(CONTEXT_EVAL), CtxValue(ctx.value), vop])
  }

  /** The nested list the server is meant to receive. */
  function Meaning(e: Expr): Value
    requires WellFormed(e)
    decreases e, 1
  {
    match e
    case Leaf(item) => LeafValue(item)
    case Fixed(code, args) => List([IntV(code)] + Meanings(args))
    case Variadic(code, args) => List([IntV(code)] + Meanings(args))
    case Call(rtype, system, ctx, vop, params, policy, bin) =>
      var op := List([IntV(vop)] + Meanings(params) + IntValues(ExtraParams(policy)));
      List([IntV(CALL), IntV(rtype), IntV(system), InContext(ctx, op), Meaning(bin)])
  }

  function Meanings(es: seq<Expr>): (vs: seq<Value>)
    requires AllWellFormed(es)
    ensures |vs| == |es|
    decreases es, 0
  {
    if es == [] then [] else [Meaning(es[0])] + Meanings(es[1..])
  }

  // ---------- the table with every variadic count filled in ----------

  function Resolve(e: Expr): (t: seq<Entry>)
    ensures |t| == |Flatten(e)|
    decreases e, 1
  {
    match e
    case Leaf(item) => [Plain(item)]
    case Fixed(code, args) => [Entry(Code(code), 1 + |args|, 0)] + ResolveAll(args)
    case Variadic(code, args) =>
      [Entry(Code(code), 1 + |args|, 0)] + ResolveAll(args) + [Plain(EndOfVaArgs)]
    case Call(_, _, _, _, params, policy, bin) =>
      CallPrefix(e) + ResolveAll(params) + PolicyEntries(policy) + Resolve(bin)
  }

  function ResolveAll(es: seq<Expr>): (t: seq<Entry>)
    ensures |t| == |FlattenAll(es)|
    decreases es, 0
  {
    if es == [] then [] else Resolve(es[0]) + ResolveAll(es[1..])
  }
}
