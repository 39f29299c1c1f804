/** The MessagePack values an expression is compiled to, as a stream of tokens.

Container headers carry their element count and the elements follow, so a stream is a
prefix encoding.  The byte layout of one token belongs to the packer and is kept abstract:
sizes are measured by an arbitrary function from tokens to byte counts. */
module ExpWire {
  import opened Prelude

  datatype Scalar =
    | IntS(i: int)
    | FloatS(r: real)
    | BoolS(b: bool)
    | StrS(s: string)
    | BytesS(bytes: seq<bv8>)
    | RawStrS(s: string)
    | GeoS(s: string)
    | NilS
    | InfS
    | WildcardS

  datatype Token =
    | ListHeader(n: nat)
    | MapHeader(n: nat)  // n counts the keys and the values
    | ScalarToken(s: Scalar)

  datatype Value =
    | Scalar(s: Scalar)
    | List(items: seq<Value>)
    | Map(items: seq<Value>)  // keys and values alternating

  function IntV(i: int): Value { Scalar(IntS(i)) }

  function IntT(i: int): Token { ScalarToken(IntS(i)) }

  // ---------- writing ----------

  function Encode(v: Value): (r: seq<Token>)
    ensures r != []
    decreases v, 1
  {
    match v
    case Scalar(s) => [ScalarToken(s)]
    case List(items) => [ListHeader(|items|)] + EncodeAll(items)
    case Map(items) => [MapHeader(|items|)] + EncodeAll(items)
  }

  function EncodeAll(vs: seq<Value>): (r: seq<Token>)
    ensures |r| >= |vs|
    decreases vs, 0
  {
    if vs == [] then [] else Encode(vs[0]) + EncodeAll(vs[1..])
  }

  // ---------- reading ----------

  /** Reads one value off the front of a stream; the result is the value and the rest. */
  function Parse(ts: seq<Token>): (r: Option<(Value, seq<Token>)>)
    ensures r.Some? ==> |r.value.1| < |ts|
    decreases |ts|, 0
  {
    if ts == [] then None
    else match ts[0]
      case ScalarToken(s) => Some((Scalar(s), ts[1..]))
      case ListHeader(n) =>
        (match ParseMany(ts[1..], n)
         case None => None
         case Some(p) => Some((List(p.0), p.1)))
      case MapHeader(n) =>
        (match ParseMany(ts[1..], n)
         case None => None
         case Some(p) => Some((Map(p.0), p.1)))
  }

  function ParseMany(ts: seq<Token>, n: nat): (r: Option<(seq<Value>, seq<Token>)>)
    ensures r.Some? ==> |r.value.0| == n && |r.value.1| <= |ts|
    decreases |ts|, 1, n
  {
    if n == 0 then Some(([], ts))
    else match Parse(ts)
      case None => None
      case Some(p) =>
        match ParseMany(p.1, n - 1)
        case None => None
        case Some(q) => Some(([p.0] + q.0, q.1))
  }

  // ---------- round trip ----------

  /** Reading undoes writing, whatever follows the value in the stream. */
  lemma {:induction false} ParseEncode(v: Value, rest: seq<Token>)
    ensures Parse(Encode(v) + rest) == Some((v, rest))
    decreases v, 1
  {
    var ts := Encode(v) + rest;
    match v {
      case Scalar(s) =>
        assert ts[1..] == rest;
      case List(items) =>
        assert ts[1..] == EncodeAll(items) + rest;
        ParseEncodeAll(items, rest);
      case Map(items) =>
        assert ts[1..] == EncodeAll(items) + rest;
        ParseEncodeAll(items, rest);
    }
  }

  lemma {:induction false} ParseEncodeAll(vs: seq<Value>, rest: seq<Token>)
    ensures ParseMany(EncodeAll(vs) + rest, |vs|) == Some((vs, rest))
    decreases vs, 0
  {
    if vs == [] {
      assert EncodeAll(vs) + rest == rest;
    } else {
      var tail := EncodeAll(vs[1..]) + rest;
      assert EncodeAll(vs) + rest == Encode(vs[0]) + tail;
      ParseEncode(vs[0], tail);
      ParseEncodeAll(vs[1..], rest);
      assert [vs[0]] + vs[1..] == vs;
    }
  }

  lemma {:induction false} EncodeAllConcat(a: seq<Value>, b: seq<Value>)
    ensures EncodeAll(a + b) == EncodeAll(a) + EncodeAll(b)
    decreases |a|
  {
    if a == [] {
      assert a + b == b;
    } else {
      assert (a + b)[0] == a[0] && (a + b)[1..] == a[1..] + b;
      EncodeAllConcat(a[1..], b);
    }
  }

  // ---------- sizes ----------

  /** Bytes taken by a stream when `sz` is the byte count of one token. */
  function Bytes(sz: Token -> nat, ts: seq<Token>): nat
  {
    if ts == [] then 0 else sz(ts[0]) + Bytes(sz, ts[1..])
  }

  lemma {:induction false} BytesConcat(sz: Token -> nat, a: seq<Token>, b: seq<Token>)
    ensures Bytes(sz, a + b) == Bytes(sz, a) + Bytes(sz, b)
    decreases |a|
  {
    if a == [] {
      assert a + b == b;
    } else {
      assert (a + b)[0] == a[0] && (a + b)[1..] == a[1..] + b;
      BytesConcat(sz, a[1..], b);
    }
  }

  // ---------- concatenated images ----------

  function FlatMap<A, B>(f: A -> seq<B>, s: seq<A>): seq<B>
  {
    if s == [] then [] else FlatMap(f, s[..|s| - 1]) + f(s[|s| - 1])
  }

  lemma {:induction false} FlatMapConcat<A, B>(f: A -> seq<B>, a: seq<A>, b: seq<A>)
    ensures FlatMap(f, a + b) == FlatMap(f, a) + FlatMap(f, b)
    decreases |b|
  {
    if b == [] {
      assert a + b == a;
    } else {
      var b' := b[..|b| - 1];
      assert (a + b)[..|a + b| - 1] == a + b';
      FlatMapConcat(f, a, b');
    }
  }

  lemma FlatMapOne<A, B>(f: A -> seq<B>, x: A)
    ensures FlatMap(f, [x]) == f(x)
  {
    assert [x][..0] == [];
  }

  lemma {:induction false} FlatMapCong<A, B>(f: A -> seq<B>, a: seq<A>, b: seq<A>)
    requires |a| == |b| && forall j :: 0 <= j < |a| ==> f(a[j]) == f(b[j])
    ensures FlatMap(f, a) == FlatMap(f, b)
    decreases |a|
  {
    if a != [] {
      FlatMapCong(f, a[..|a| - 1], b[..|b| - 1]);
    }
  }
}
