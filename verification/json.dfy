/** Decoded JSON values as the Python code sees them after `json.loads`:
    strings, integers, booleans, `None`, lists, and dicts with their
    insertion order.  Floats are not part of this model. */
module Json {
  import opened Wrappers

  datatype Json =
    | Str(s: string)
    | Int(i: int)
    | Bool(b: bool)
    | Null
    | Arr(items: seq<Json>)
    | Obj(fields: seq<Field>)

  /** One dict entry; a dict is its entries in insertion order. */
  datatype Field = Field(key: string, val: Json)

  /** The primitive test of `deep_update`: `str`, `int` (and so `bool`, a
      subclass of `int`) or `None`. */
  predicate IsPrimitive(j: Json) {
    j.Str? || j.Int? || j.Bool? || j.Null?
  }

  function Keys(fs: seq<Field>): (ks: seq<string>)
    ensures |ks| == |fs|
    ensures forall i :: 0 <= i < |fs| ==> ks[i] == fs[i].key
  {
    seq(|fs|, i requires 0 <= i < |fs| => fs[i].key)
  }

  /** Python dicts never hold a key twice. */
  predicate UniqueKeys(fs: seq<Field>) {
    forall i, j :: 0 <= i < j < |fs| ==> fs[i].key != fs[j].key
  }

  /** Every dict in the value, at any depth, has unique keys. */
  predicate WF(j: Json)
    decreases j
  {
    match j
    case Arr(xs) => forall i :: 0 <= i < |xs| ==> WF(xs[i])
    case Obj(fs) => UniqueKeys(fs) && forall i :: 0 <= i < |fs| ==> WF(fs[i].val)
    case _ => true
  }

  /** A dict whose values are all primitive, like every list entry of the
      CV schema. */
  predicate FlatFields(fs: seq<Field>) {
    forall i :: 0 <= i < |fs| ==> IsPrimitive(fs[i].val)
  }

  /** Position of `k` among the entries, or `|fs|` when absent. */
  function IndexOf(fs: seq<Field>, k: string): (n: nat)
    ensures n <= |fs|
    ensures n < |fs| ==> fs[n].key == k
    ensures forall i :: 0 <= i < n ==> fs[i].key != k
    decreases |fs|
  {
    if fs == [] then 0
    else if fs[0].key == k then 0
    else 1 + IndexOf(fs[1..], k)
  }

  /** `d[k]` when `k in d`, and `None` otherwise. */
  function Lookup(fs: seq<Field>, k: string): (r: Option<Json>)
    ensures r.Some? <==> k in Keys(fs)
    ensures r.Some? ==> Field(k, r.value) in fs
    ensures UniqueKeys(fs) ==> forall i :: 0 <= i < |fs| && fs[i].key == k ==> r == Some(fs[i].val)
  {
    var n := IndexOf(fs, k);
    assert n == |fs| ==> k !in Keys(fs);
    if n < |fs| then Some(fs[n].val) else None
  }

  /** `IndexOf` is determined by its contract: the first position holding
      `k`, or the length when there is none. */
  lemma IndexOfIs(fs: seq<Field>, k: string, m: nat)
    requires m <= |fs|
    requires m < |fs| ==> fs[m].key == k
    requires forall i :: 0 <= i < m ==> fs[i].key != k
    ensures IndexOf(fs, k) == m
  {
  }

  /** `d[k] = v`: an existing key keeps its position, a new key goes last. */
  function Put(fs: seq<Field>, k: string, v: Json): (r: seq<Field>)
    ensures Lookup(r, k) == Some(v)
    ensures forall k' :: k' != k ==> Lookup(r, k') == Lookup(fs, k')
    ensures Keys(r) == if k in Keys(fs) then Keys(fs) else Keys(fs) + [k]
    ensures UniqueKeys(fs) ==> UniqueKeys(r)
    ensures Lookup(fs, k) == Some(v) ==> r == fs
    ensures forall i :: 0 <= i < |r| ==> r[i] == Field(k, v) || r[i] in fs
  {
    var n := IndexOf(fs, k);
    var r := if n < |fs| then fs[n := Field(k, v)] else fs + [Field(k, v)];
    PutLookup(fs, k, v, n, r);
    PutKeys(fs, k, v, n, r);
    r
  }

  lemma PutLookup(fs: seq<Field>, k: string, v: Json, n: nat, r: seq<Field>)
    requires n == IndexOf(fs, k)
    requires r == if n < |fs| then fs[n := Field(k, v)] else fs + [Field(k, v)]
    ensures Lookup(r, k) == Some(v)
    ensures forall k' :: k' != k ==> Lookup(r, k') == Lookup(fs, k')
  {
    IndexOfIs(r, k, n);
    forall k' | k' != k
      ensures Lookup(r, k') == Lookup(fs, k')
    {
      PutLookupOther(fs, k, v, n, r, k');
    }
  }

  lemma PutLookupOther(fs: seq<Field>, k: string, v: Json, n: nat, r: seq<Field>, k': string)
    requires n == IndexOf(fs, k) && k' != k
    requires r == if n < |fs| then fs[n := Field(k, v)] else fs + [Field(k, v)]
    ensures Lookup(r, k') == Lookup(fs, k')
  {
    var m := IndexOf(fs, k');
    assert forall i :: 0 <= i < |fs| && i != n ==> r[i] == fs[i];
    if m < |fs| {
      IndexOfIs(r, k', m);
    } else {
      IndexOfIs(r, k', |r|);
    }
  }

  lemma PutKeys(fs: seq<Field>, k: string, v: Json, n: nat, r: seq<Field>)
    requires n == IndexOf(fs, k)
    requires r == if n < |fs| then fs[n := Field(k, v)] else fs + [Field(k, v)]
    ensures Keys(r) == if k in Keys(fs) then Keys(fs) else Keys(fs) + [k]
    ensures UniqueKeys(fs) ==> UniqueKeys(r)
  {
    assert n == |fs| ==> k !in Keys(fs);
    assert Keys(r) == if n < |fs| then Keys(fs) else Keys(fs) + [k];
  }

  lemma KeysTail(b: seq<Field>)
    requires b != []
    ensures Keys(b) == [b[0].key] + Keys(b[1..])
    ensures forall k :: k in Keys(b) <==> k == b[0].key || k in Keys(b[1..])
    ensures UniqueKeys(b) ==> UniqueKeys(b[1..]) && b[0].key !in Keys(b[1..])
  {
    assert Keys(b) == [b[0].key] + Keys(b[1..]);
  }

  function NumOf(j: Json): int
    requires j.Int? || j.Bool?
  {
    if j.Int? then j.i else if j.b then 1 else 0
  }

  /** Python's `a == b` on decoded JSON: `True == 1` and `False == 0`, lists
      compare element by element, and dicts compare as CPython's dict
      equality does (same size, every key of `a` present in `b` with an equal
      value), so key order does not matter. */
  predicate PyEq(a: Json, b: Json)
    decreases a
  {
    match a
    case Str(x) => b.Str? && b.s == x
    case Null => b.Null?
    case Int(_) => (b.Int? || b.Bool?) && NumOf(a) == NumOf(b)
    case Bool(_) => (b.Int? || b.Bool?) && NumOf(a) == NumOf(b)
    case Arr(xs) =>
      && b.Arr?
      && |xs| == |b.items|
      && forall i :: 0 <= i < |xs| ==> PyEq(xs[i], b.items[i])
    case Obj(fs) =>
      && b.Obj?
      && |fs| == |b.fields|
      && forall i :: 0 <= i < |fs| ==>
           var w := Lookup(b.fields, fs[i].key);
           w.Some? && PyEq(fs[i].val, w.value)
  }

  /** `bool(j)`. */
  predicate Truthy(j: Json) {
    match j
    case Str(s) => s != []
    case Int(i) => i != 0
    case Bool(b) => b
    case Null => false
    case Arr(xs) => xs != []
    case Obj(fs) => fs != []
  }

  /** A value with no list anywhere inside it. */
  predicate ListFree(j: Json)
    decreases j
  {
    match j
    case Arr(_) => false
    case Obj(fs) => forall i :: 0 <= i < |fs| ==> ListFree(fs[i].val)
    case _ => true
  }
}
