/**
 * JavaScript values as the save/restore code sees them. Objects live in a heap and are
 * reached through references, so that object identity (what `seen`, `this.map` and the
 * circular-structure check of src/worldSaver.js depend on) is explicit. Arrays are kept
 * inline: the encoder never records them in `seen` (src/worldSaver.js:92-98), so their
 * identity plays no part in it.
 */
module JsValue {
  import opened Wrappers

  /** One own property of an object, in insertion order. */
  datatype Prop<V> = Prop(key: string, value: V)

  /** The property names, in insertion order (`Object.keys`). */
  function Keys<V>(props: seq<Prop<V>>): (ks: seq<string>)
    ensures |ks| == |props|
    ensures forall i :: 0 <= i < |props| ==> ks[i] == props[i].key
  {
    if props == [] then [] else [props[0].key] + Keys(props[1..])
  }

  predicate DistinctKeys<V>(props: seq<Prop<V>>) {
    forall i, j :: 0 <= i < j < |props| ==> props[i].key != props[j].key
  }

  /** Property lookup `obj[k]`: the value of the first property named `k`. */
  function Get<V>(props: seq<Prop<V>>, k: string): (r: Option<V>)
    ensures r.Some? <==> exists i :: 0 <= i < |props| && props[i].key == k
    ensures r.Some? ==> exists i :: 0 <= i < |props| && props[i] == Prop(k, r.value)
  {
    if props == [] then None
    else if props[0].key == k then Some(props[0].value)
    else
      var r := Get(props[1..], k);
      assert forall i :: 1 <= i < |props| ==> props[i] == props[1..][i - 1];
      r
  }

  /** The position of the first property named `k`, or -1 when there is none. */
  function IndexOf<V>(props: seq<Prop<V>>, k: string): (i: int)
    ensures -1 <= i < |props|
    ensures i >= 0 ==> props[i].key == k && Get(props, k) == Some(props[i].value)
    ensures i < 0 <==> Get(props, k).None?
  {
    if props == [] then -1
    else if props[0].key == k then 0
    else
      var i := IndexOf(props[1..], k);
      if i < 0 then -1 else i + 1
  }

  /** Looking up a name after one more property is appended. */
  lemma {:induction false} GetSnoc<V>(props: seq<Prop<V>>, p: Prop<V>, k: string)
    ensures Get(props + [p], k) ==
      if Get(props, k).Some? then Get(props, k) else if p.key == k then Some(p.value) else None
  {
    if props != [] && props[0].key != k {
      GetSnoc(props[1..], p, k);
      assert (props + [p])[1..] == props[1..] + [p];
    }
  }

  /** Property assignment `obj[k] = v`: an existing property keeps its place, a new one goes last. */
  function Set<V>(props: seq<Prop<V>>, k: string, v: V): (r: seq<Prop<V>>)
    ensures (forall i :: 0 <= i < |props| ==> props[i].key != k) ==> r == props + [Prop(k, v)]
  {
    if props == [] then [Prop(k, v)]
    else if props[0].key == k then [Prop(k, v)] + props[1..]
    else [props[0]] + Set(props[1..], k, v)
  }

  /** Assignment leaves the existing properties and adds or overwrites only `k: v`. */
  lemma {:induction false} SetFrom<V>(props: seq<Prop<V>>, k: string, v: V)
    ensures forall p :: p in Set(props, k, v) ==> p == Prop(k, v) || p in props
  {
    if props != [] && props[0].key != k {
      SetFrom(props[1..], k, v);
      assert forall p :: p in props[1..] ==> p in props;
    }
  }

  /** After `obj[k] = v`, `obj[k]` is `v` and every other property reads as before. */
  lemma {:induction false} SetGet<V>(props: seq<Prop<V>>, k: string, v: V, k': string)
    ensures Get(Set(props, k, v), k') == if k' == k then Some(v) else Get(props, k')
  {
    if props != [] && props[0].key != k {
      SetGet(props[1..], k, v, k');
      assert ([props[0]] + Set(props[1..], k, v))[1..] == Set(props[1..], k, v);
    }
  }

  /** Assignment keeps the names of existing properties in place and puts a new name last. */
  lemma {:induction false} SetKeys<V>(props: seq<Prop<V>>, k: string, v: V)
    ensures Keys(Set(props, k, v)) == if k in Keys(props) then Keys(props) else Keys(props) + [k]
  {
    if props != [] && props[0].key != k {
      SetKeys(props[1..], k, v);
      assert Keys(props) == [props[0].key] + Keys(props[1..]);
      assert Keys(Set(props, k, v)) == [props[0].key] + Keys(Set(props[1..], k, v));
    } else if props != [] {
      assert Keys(props) == [k] + Keys(props[1..]);
      assert Keys(Set(props, k, v)) == [k] + Keys(props[1..]);
    }
  }

  /** Assignment keeps property names unique. */
  lemma SetDistinct<V>(props: seq<Prop<V>>, k: string, v: V)
    requires DistinctKeys(props)
    ensures DistinctKeys(Set(props, k, v))
  {
    SetKeys(props, k, v);
    var r := Set(props, k, v);
    forall i, j | 0 <= i < j < |r| ensures r[i].key != r[j].key {
      assert Keys(r)[i] == r[i].key && Keys(r)[j] == r[j].key;
    }
  }

  /** Heap references. Records built by a save get references of their own kind. */
  datatype Ref = WorldObj(n: nat) | RecordObj(n: nat) | DataObj(n: nat)

  /** A JavaScript value. Numbers are integral here; `NaN` and the infinities are kept apart. */
  datatype Val =
    | Undefined
    | Null
    | Bool(b: bool)
    | Num(n: int)
    | NaN
    | Infinity(negative: bool)
    | Str(s: string)
    | Func
    | Arr(items: seq<Val>)
    | Ptr(ref: Ref)

  /** A `Map` entry. */
  datatype Pair = Pair(key: Val, value: Val)

  /** A heap object: a plain object with its own properties, or a `Map` with its entries. */
  datatype Node = Plain(props: seq<Prop<Val>>) | MapNode(pairs: seq<Pair>)

  type Heap = map<Ref, Node>

  /** JavaScript truthiness. */
  predicate Truthy(v: Val) {
    match v
    case Undefined => false
    case Null => false
    case Bool(b) => b
    case Num(n) => n != 0
    case NaN => false
    case Infinity(_) => true
    case Str(s) => s != ""
    case Func => true
    case Arr(_) => true
    case Ptr(_) => true
  }

  /** Every reference inside `v` is allocated in `h`. */
  predicate PtrsIn(v: Val, h: Heap) {
    match v
    case Ptr(r) => r in h
    case Arr(items) => forall i :: 0 <= i < |items| ==> PtrsIn(items[i], h)
    case _ => true
  }

  predicate NodePtrsIn(n: Node, h: Heap) {
    match n
    case Plain(props) => forall i :: 0 <= i < |props| ==> PtrsIn(props[i].value, h)
    case MapNode(pairs) => forall i :: 0 <= i < |pairs| ==> PtrsIn(pairs[i].key, h) && PtrsIn(pairs[i].value, h)
  }

  /** No dangling references, and plain objects have one property per name. */
  predicate Closed(h: Heap) {
    forall r :: r in h ==> NodePtrsIn(h[r], h) && (h[r].Plain? ==> DistinctKeys(h[r].props))
  }
}
