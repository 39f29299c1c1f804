/** Entry tables are uniquely readable: the tree can be recovered from its macro expansion. */
module ExpRead {
  import opened Prelude
  import opened ExpTable

  /** Reads one expression off the front of a table. */
  function ReadExpr(t: seq<Entry>): (r: Option<(Expr, seq<Entry>)>)
    ensures r.Some? ==> |r.value.1| < |t|
    decreases |t|, 0
  {
    if t == [] then None
    else if IsLeaf(t[0].item) then Some((Leaf(t[0].item), t[1..]))
    else if !t[0].item.Code? then None
    else if IsVariadic(t[0].item.code) then
      match ReadToEnd(t[1..])
      case None => None
      case Some(p) => Some((Variadic(t[0].item.code, p.0), p.1))
    else if t[0].item.code == CALL then ReadCall(t)
    else if t[0].count == 0 then None
    else
      match ReadMany(t[1..], t[0].count - 1)
      case None => None
      case Some(p) => Some((Fixed(t[0].item.code, p.0), p.1))
  }

  /** Reads n expressions, or fewer when a policy entry comes first. */
  function ReadMany(t: seq<Entry>, n: nat): (r: Option<(seq<Expr>, seq<Entry>)>)
    ensures r.Some? ==> |r.value.1| <= |t|
    decreases |t|, 1
  {
    if n == 0 || (t != [] && IsPolicy(t[0].item)) then Some(([], t))
    else
      match ReadExpr(t)
      case None => None
      case Some(p) =>
        match ReadMany(p.1, n - 1)
        case None => None
        case Some(q) => Some(([p.0] + q.0, q.1))
  }

  /** Reads expressions up to the end marker that closes this list. */
  function ReadToEnd(t: seq<Entry>): (r: Option<(seq<Expr>, seq<Entry>)>)
    ensures r.Some? ==> |r.value.1| < |t|
    decreases |t|, 1
  {
    if t == [] then None
    else if t[0].item.EndOfVaArgs? then Some(([], t[1..]))
    else
      match ReadExpr(t)
      case None => None
      case Some(p) =>
        match ReadToEnd(p.1)
        case None => None
        case Some(q) => Some(([p.0] + q.0, q.1))
  }

  predicate CallShape(t: seq<Entry>)
  {
    |t| >= 5 && t[1].item.ValRtype? && t[2].item.ValInt? && t[3].item.VopStart? && t[3].count > 0 && t[4].item.ValInt?
  }

  function ReadCall(t: seq<Entry>): (r: Option<(Expr, seq<Entry>)>)
    requires t != []
    ensures r.Some? ==> |r.value.1| < |t|
    decreases |t| - 1, 2
  {
    if !CallShape(t) then None
    else
      match ReadMany(t[5..], t[3].count - 1)
      case None => None
      case Some(p) =>
        var hasPolicy := p.1 != [] && IsPolicy(p.1[0].item);
        var policy := if hasPolicy then Some(p.1[0].item) else None;
        match ReadExpr(if hasPolicy then p.1[1..] else p.1)
        case None => None
        case Some(b) =>
          Some((Call(t[1].item.rtype, t[2].item.i, t[3].item.ctx, t[4].item.i, p.0, policy, b.0), b.1))
  }

  // ---------- reading undoes the expansion ----------

  /** No expression starts with a policy entry or an end marker. */
  lemma StartsLikeExpr(e: Expr)
    requires WellFormed(e)
    ensures !IsPolicy(Flatten(e)[0].item) && !Flatten(e)[0].item.EndOfVaArgs?
  {
  }

  lemma {:induction false} ReadFlatten(e: Expr, rest: seq<Entry>)
    requires WellFormed(e)
    ensures ReadExpr(Flatten(e) + rest) == Some((e, rest))
    decreases e, 1
  {
    hide ReadMany, ReadToEnd, ReadCall, FlattenAll;
    var t := Flatten(e) + rest;
    match e {
      case Leaf(item) =>
        assert t[1..] == rest;
      case Fixed(code, args) =>
        assert t[1..] == FlattenAll(args) + rest;
        ReadFlattenMany(args, |args|, rest);
      case Variadic(code, args) =>
        assert t[1..] == FlattenAll(args) + ([Plain(EndOfVaArgs)] + rest);
        ReadFlattenToEnd(args, rest);
      case Call(_, _, _, _, _, _, _) =>
        assert t[0] == CallPrefix(e)[0];
        ReadFlattenCall(e, rest);
    }
  }

  lemma {:induction false} ReadFlattenCall(e: Expr, rest: seq<Entry>)
    requires e.Call? && WellFormed(e)
    ensures ReadCall(Flatten(e) + rest) == Some((e, rest))
    decreases e, 0
  {
    var tail := Flatten(e.bin) + rest;
    var mid := PolicyEntries(e.policy) + tail;
    CallLayout(e, rest);
    StartsLikeExpr(e.bin);
    assert tail[0] == Flatten(e.bin)[0];
    hide Flatten, FlattenAll, ReadCall;
    ReadFlattenMany(e.params, |e.params| + |ExtraParams(e.policy)|, mid);
    ReadFlatten(e.bin, rest);
    ReadCallParts(e, FlattenAll(e.params), mid, tail, rest);
  }

  lemma CallLayout(e: Expr, rest: seq<Entry>)
    requires e.Call?
    ensures Flatten(e) + rest
         == CallPrefix(e) + (FlattenAll(e.params) + (PolicyEntries(e.policy) + (Flatten(e.bin) + rest)))
  {
    Regroup(CallPrefix(e), FlattenAll(e.params), PolicyEntries(e.policy), Flatten(e.bin), rest);
  }

  lemma Regroup<T>(p: seq<T>, a: seq<T>, b: seq<T>, c: seq<T>, r: seq<T>)
    ensures p + a + b + c + r == p + (a + (b + (c + r)))
  {
  }

  /** Reading a call whose parts are known to read back. */
  lemma ReadCallParts(e: Expr, params: seq<Entry>, mid: seq<Entry>, tail: seq<Entry>, rest: seq<Entry>)
    requires e.Call? && (e.policy.Some? ==> IsPolicy(e.policy.value))
    requires mid == PolicyEntries(e.policy) + tail
    requires tail != [] && !IsPolicy(tail[0].item)
    requires ReadMany(params + mid, |e.params| + |ExtraParams(e.policy)|) == Some((e.params, mid))
    requires ReadExpr(tail) == Some((e.bin, rest))
    ensures ReadCall(CallPrefix(e) + (params + mid)) == Some((e, rest))
  {
    hide ReadMany, ReadExpr, CallPrefix, ReadToEnd;
    if e.policy.Some? {
      assert mid[0] == Plain(e.policy.value) && mid[1..] == tail;
    } else {
      assert mid == tail;
    }
    PrefixThen(e, params + mid);
  }

  lemma PrefixThen(e: Expr, rest: seq<Entry>)
    requires e.Call?
    ensures var t := CallPrefix(e) + rest;
            && t[5..] == rest && CallShape(t)
            && t[1].item == ValRtype(e.rtype) && t[2].item == ValInt(e.system)
            && t[3].item == VopStart(e.ctx) && t[3].count == VopCount(e.params, e.policy) && t[4].item == ValInt(e.vop)
  {
    var t := CallPrefix(e) + rest;
    assert t[1] == CallPrefix(e)[1] && t[2] == CallPrefix(e)[2] && t[3] == CallPrefix(e)[3] && t[4] == CallPrefix(e)[4];
  }

  lemma {:induction false} ReadFlattenMany(es: seq<Expr>, n: nat, rest: seq<Entry>)
    requires AllWellFormed(es) && |es| <= n
    requires n == |es| || (rest != [] && IsPolicy(rest[0].item))
    ensures ReadMany(FlattenAll(es) + rest, n) == Some((es, rest))
    decreases es, 0
  {
    var t := FlattenAll(es) + rest;
    if es == [] {
      assert t == rest;
    } else {
      var tail := FlattenAll(es[1..]) + rest;
      assert t == Flatten(es[0]) + tail;
      StartsLikeExpr(es[0]);
      assert t[0] == Flatten(es[0])[0];
      ReadFlatten(es[0], tail);
      ReadFlattenMany(es[1..], n - 1, rest);
      assert [es[0]] + es[1..] == es;
    }
  }

  lemma {:induction false} ReadFlattenToEnd(es: seq<Expr>, rest: seq<Entry>)
    requires AllWellFormed(es)
    ensures ReadToEnd(FlattenAll(es) + ([Plain(EndOfVaArgs)] + rest)) == Some((es, rest))
    decreases es, 0
  {
    var end := [Plain(EndOfVaArgs)] + rest;
    var t := FlattenAll(es) + end;
    if es == [] {
      assert t == end && end[1..] == rest;
    } else {
      var tail := FlattenAll(es[1..]) + end;
      assert t == Flatten(es[0]) + tail;
      StartsLikeExpr(es[0]);
      assert t[0] == Flatten(es[0])[0];
      ReadFlatten(es[0], tail);
      ReadFlattenToEnd(es[1..], rest);
      assert [es[0]] + es[1..] == es;
    }
  }

  /** Different trees give different tables, and no table is a proper prefix of another. */
  lemma UniquelyReadable(e1: Expr, e2: Expr, r1: seq<Entry>, r2: seq<Entry>)
    requires WellFormed(e1) && WellFormed(e2) && Flatten(e1) + r1 == Flatten(e2) + r2
    ensures e1 == e2 && r1 == r2
  {
    ReadFlatten(e1, r1);
    ReadFlatten(e2, r2);
  }
}
