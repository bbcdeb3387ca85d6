/**
 * `parse(stringify(x))` for the encoder and decoder of src/worldSaver.js:86-139: a value
 * graph without `Map`s and without a `__map` property comes back object for object as it
 * was written, and a `Map` of primitive entries comes back as a `Map` with the same entries
 * in the same order.
 */
module RoundTrip {
  import opened Wrappers
  import opened JsValue
  import opened Json
  import opened Codec
  import opened CodecFacts
  import opened Reviver
  import KeyOrder

  /** No plain object in the heap has a property named `__map`. */
  predicate NoTag(h: Heap) {
    forall r :: r in h && h[r].Plain? ==> Get(h[r].props, "__map").None?
  }

  // ----- Without `Map`s and `__map` properties, the output is untagged -----

  lemma {:induction false} CanonUntagged(h: Heap, v: Val, seen: set<Ref>)
    requires Closed(h) && NoMaps(h) && NoTag(h) && PtrsIn(v, h)
    ensures var r := Canon(h, v, seen);
      r.Ok? && r.value.json.Some? ==> Untagged(r.value.json.value)
    decreases |h.Keys - seen|, v, 1
  {
    match v
    case Arr(items) =>
      CanonItemsUntagged(h, items, seen);
    case Ptr(r) =>
      CanonRefUntagged(h, r, seen);
    case _ =>
  }

  lemma {:induction false} CanonRefUntagged(h: Heap, r: Ref, seen: set<Ref>)
    requires Closed(h) && NoMaps(h) && NoTag(h) && r in h
    ensures var c := CanonRef(h, r, seen);
      c.Ok? && c.value.json.Some? ==> Untagged(c.value.json.value)
    decreases |h.Keys - seen|, Ptr(r), 0
  {
    if r !in seen {
      assert h.Keys - (seen + {r}) == (h.Keys - seen) - {r};
      CanonPropsUntagged(h, h[r].props, KeyOrder.Sort(Keys(h[r].props)), seen + {r});
      ObjectUntagged(h, r, seen);
    }
  }

  /** An object written from untagged members is untagged. */
  lemma ObjectUntagged(h: Heap, r: Ref, seen: set<Ref>)
    requires Closed(h) && NoMaps(h) && NoTag(h) && r in h && r !in seen
    requires var m := CanonProps(h, h[r].props, KeyOrder.Sort(Keys(h[r].props)), seen + {r});
      m.Ok? ==> forall i :: 0 <= i < |m.value.members| ==> Untagged(m.value.members[i].value)
    ensures var c := CanonRef(h, r, seen);
      c.Ok? && c.value.json.Some? ==> Untagged(c.value.json.value)
  {
    var props := h[r].props;
    ObjectKeysSorted(h, r, seen);
    var c := CanonRef(h, r, seen);
    if c.Ok? {
      assert Get(props, "__map").None?;
      UntaggedObject(c.value.json.value.members, props);
    }
  }

  /** Members with strictly increasing names, all names of `props`, which has no `__map`, and untagged values. */
  lemma UntaggedObject(members: seq<Prop<Json>>, props: seq<Prop<Val>>)
    requires KeyOrder.StrictlySorted(Keys(members))
    requires forall m :: m in members ==> Get(props, m.key).Some?
    requires Get(props, "__map").None?
    requires forall i :: 0 <= i < |members| ==> Untagged(members[i].value)
    ensures Untagged(JObj(members))
  {
    forall i, j | 0 <= i < j < |members| ensures members[i].key != members[j].key {
      assert Keys(members)[i] == members[i].key && Keys(members)[j] == members[j].key;
      KeyOrder.BelowIrreflexive(members[i].key);
    }
  }

  lemma {:induction false} CanonItemsUntagged(h: Heap, items: seq<Val>, seen: set<Ref>)
    requires Closed(h) && NoMaps(h) && NoTag(h) && forall i :: 0 <= i < |items| ==> PtrsIn(items[i], h)
    ensures var r := CanonItems(h, items, seen);
      r.Ok? ==> forall i :: 0 <= i < |items| ==> Untagged(r.value.items[i])
    decreases |h.Keys - seen|, items
  {
    if items != [] {
      CanonItemsUntagged(h, items[..|items| - 1], seen);
      var prev := CanonItems(h, items[..|items| - 1], seen);
      if prev.Ok? {
        Fewer(h, seen, prev.value.seen);
        CanonUntagged(h, items[|items| - 1], prev.value.seen);
      }
      ItemsUntaggedStep(h, items, seen);
    }
  }

  /** One more element keeps the elements written untagged. */
  lemma ItemsUntaggedStep(h: Heap, items: seq<Val>, seen: set<Ref>)
    requires Closed(h) && forall i :: 0 <= i < |items| ==> PtrsIn(items[i], h)
    requires items != []
    requires var prev := CanonItems(h, items[..|items| - 1], seen);
      prev.Ok? ==> forall i :: 0 <= i < |prev.value.items| ==> Untagged(prev.value.items[i])
    requires var prev := CanonItems(h, items[..|items| - 1], seen);
      prev.Ok? ==>
        var c := Canon(h, items[|items| - 1], prev.value.seen);
        c.Ok? && c.value.json.Some? ==> Untagged(c.value.json.value)
    ensures var r := CanonItems(h, items, seen);
      r.Ok? ==> forall i :: 0 <= i < |items| ==> Untagged(r.value.items[i])
  {
    var n := |items| - 1;
    assert items[..n + 1] == items;
    var prev := CanonItems(h, items[..n], seen);
    if prev.Ok? {
      CanonItemsGrows(h, items, n, seen, prev.value);
    }
  }

  lemma {:induction false} CanonPropsUntagged(h: Heap, props: seq<Prop<Val>>, keys: seq<string>, seen: set<Ref>)
    requires Closed(h) && NoMaps(h) && NoTag(h) && forall i :: 0 <= i < |props| ==> PtrsIn(props[i].value, h)
    ensures var r := CanonProps(h, props, keys, seen);
      r.Ok? ==> forall i :: 0 <= i < |r.value.members| ==> Untagged(r.value.members[i].value)
    decreases |h.Keys - seen|, props, |keys|
  {
    if keys != [] {
      var n := |keys| - 1;
      CanonPropsUntagged(h, props, keys[..n], seen);
      var prev := CanonProps(h, props, keys[..n], seen);
      var i := IndexOf(props, keys[n]);
      if prev.Ok? && i >= 0 {
        assert props[i] in props;
        Fewer(h, seen, prev.value.seen);
        CanonUntagged(h, props[i].value, prev.value.seen);
      }
      PropsUntaggedStep(h, props, keys, seen);
    }
  }

  /** One more key keeps the members written untagged. */
  lemma PropsUntaggedStep(h: Heap, props: seq<Prop<Val>>, keys: seq<string>, seen: set<Ref>)
    requires Closed(h) && forall i :: 0 <= i < |props| ==> PtrsIn(props[i].value, h)
    requires keys != []
    requires var prev := CanonProps(h, props, keys[..|keys| - 1], seen);
      prev.Ok? ==> forall i :: 0 <= i < |prev.value.members| ==> Untagged(prev.value.members[i].value)
    requires var prev := CanonProps(h, props, keys[..|keys| - 1], seen);
      var i := IndexOf(props, keys[|keys| - 1]);
      prev.Ok? && i >= 0 ==>
        var c := Canon(h, props[i].value, prev.value.seen);
        c.Ok? && c.value.json.Some? ==> Untagged(c.value.json.value)
    ensures var r := CanonProps(h, props, keys, seen);
      r.Ok? ==> forall i :: 0 <= i < |r.value.members| ==> Untagged(r.value.members[i].value)
  {
    var n := |keys| - 1;
    assert keys[..n + 1] == keys;
    var prev := CanonProps(h, props, keys[..n], seen);
    var i := IndexOf(props, keys[n]);
    if prev.Ok? && i >= 0 {
      CanonPropsGrows(h, props, keys, n, seen, prev.value);
    }
  }

  /**
   * Without `Map`s and `__map` properties, whatever the encoder writes decodes to the same
   * tree: each object written becomes one new object with the same members, in the same
   * order.
   */
  lemma ParseAfterStringify(h: Heap, v: Val)
    requires Closed(h) && NoMaps(h) && NoTag(h) && PtrsIn(v, h)
    ensures var r := Canon(h, v, {});
      r.Ok? && r.value.json.Some? ==> Revive(r.value.json.value) == Ok(Embed(r.value.json.value))
  {
    CanonUntagged(h, v, {});
    var r := Canon(h, v, {});
    if r.Ok? && r.value.json.Some? {
      ReviveUntagged(r.value.json.value);
    }
  }

  // ----- A `Map` of primitives survives the round trip -----

  /** A value whose JSON text decodes back to an equal value. */
  predicate Primitive(v: Val) {
    v.Null? || v.Bool? || v.Num? || v.Str?
  }

  /** The decoded counterpart of a primitive. */
  function DecodedScalar(v: Val): DValue
    requires Primitive(v)
  {
    match v
    case Null => DNull
    case Bool(b) => DBool(b)
    case Num(n) => DNum(n)
    case Str(s) => DStr(s)
  }

  predicate PrimitivePairs(pairs: seq<Pair>) {
    forall i :: 0 <= i < |pairs| ==> Primitive(pairs[i].key) && Primitive(pairs[i].value)
  }

  /** The entries a `Map` of primitives should decode to. */
  function DecodedEntries(pairs: seq<Pair>): (r: seq<Entry>)
    requires PrimitivePairs(pairs)
    ensures |r| == |pairs|
    ensures forall i :: 0 <= i < |pairs| ==> r[i] == Entry(DecodedScalar(pairs[i].key), DecodedScalar(pairs[i].value))
  {
    if pairs == [] then [] else [Entry(DecodedScalar(pairs[0].key), DecodedScalar(pairs[0].value))] + DecodedEntries(pairs[1..])
  }

  /** A primitive is written without touching `seen`, and its text decodes back to it. */
  lemma PrimitiveText(h: Heap, v: Val, seen: set<Ref>)
    requires Closed(h) && Primitive(v)
    ensures var r := Canon(h, v, seen);
      r.Ok? && r.value.seen == seen && r.value.json.Some? && Revive(r.value.json.value) == Ok(DecodedScalar(v))
  {
  }

  /** A `Map` entry of primitives is written as a `[key, value]` array that decodes back. */
  lemma PrimitivePair(h: Heap, p: Pair, seen: set<Ref>)
    requires Closed(h) && Primitive(p.key) && Primitive(p.value)
    ensures PairPtrsIn(p, h)
    ensures var r := CanonPair(h, p, seen);
      && r.Ok? && r.value.seen == seen
      && Revive(r.value.json.value) == Ok(DArr([DecodedScalar(p.key), DecodedScalar(p.value)]))
  {
    PrimitiveText(h, p.key, seen);
    PrimitiveText(h, p.value, seen);
    var k := Canon(h, p.key, seen).value.json.value;
    var w := Canon(h, p.value, seen).value.json.value;
    assert CanonPair(h, p, seen) == Ok(Encoded(Some(JArr([k, w])), seen));
    assert ReviveItems([k]) == Ok([DecodedScalar(p.key)]) by {
      assert [k][..0] == [];
      assert [] + [DecodedScalar(p.key)] == [DecodedScalar(p.key)];
    }
    assert ReviveItems([k, w]) == Ok([DecodedScalar(p.key), DecodedScalar(p.value)]) by {
      assert [k, w][..1] == [k];
      assert [DecodedScalar(p.key)] + [DecodedScalar(p.value)] == [DecodedScalar(p.key), DecodedScalar(p.value)];
    }
  }

  /** The entries of a `Map` of primitives are written as `[key, value]` arrays that decode back. */
  lemma {:induction false} CanonPairsPrimitive(h: Heap, pairs: seq<Pair>, seen: set<Ref>)
    requires Closed(h) && PrimitivePairs(pairs)
    ensures forall i :: 0 <= i < |pairs| ==> PairPtrsIn(pairs[i], h)
    ensures var r := CanonPairs(h, pairs, seen);
      && r.Ok? && r.value.seen == seen
      && forall i :: 0 <= i < |pairs| ==>
           Revive(r.value.items[i]) == Ok(DArr([DecodedScalar(pairs[i].key), DecodedScalar(pairs[i].value)]))
    decreases |pairs|
  {
    if pairs != [] {
      var n := |pairs| - 1;
      CanonPairsPrimitive(h, pairs[..n], seen);
      assert forall i :: 0 <= i < n ==> pairs[..n][i] == pairs[i];
      PrimitivePair(h, pairs[n], seen);
    }
  }

  /** The decoded keys of a `Map` of primitives, in order. */
  function DecodedKeys(pairs: seq<Pair>): (r: seq<DValue>)
    requires PrimitivePairs(pairs)
    ensures |r| == |pairs| && forall i :: 0 <= i < |pairs| ==> r[i] == DecodedScalar(pairs[i].key)
  {
    seq(|pairs|, i requires 0 <= i < |pairs| => DecodedScalar(pairs[i].key))
  }

  /** The decoded values of a `Map` of primitives, in order. */
  function DecodedValues(pairs: seq<Pair>): (r: seq<DValue>)
    requires PrimitivePairs(pairs)
    ensures |r| == |pairs| && forall i :: 0 <= i < |pairs| ==> r[i] == DecodedScalar(pairs[i].value)
  {
    seq(|pairs|, i requires 0 <= i < |pairs| => DecodedScalar(pairs[i].value))
  }

  /** Keys that are distinct primitives stay distinct as `Map` keys once decoded. */
  lemma DistinctDecodedKeys(pairs: seq<Pair>)
    requires PrimitivePairs(pairs)
    requires forall i, j :: 0 <= i < j < |pairs| ==> pairs[i].key != pairs[j].key
    ensures FreshKeys([], DecodedKeys(pairs))
  {
  }

  /** The parser keeps the wrapper's two members as they are: their names differ. */
  lemma WrapperCollect(items: seq<Json>)
    ensures var members := [Prop("__map", JBool(true)), Prop("values", JArr(items))];
      Collect(members) == members
  {
    CollectDistinct([Prop("__map", JBool(true)), Prop("values", JArr(items))]);
  }

  /** The two members of the tagged wrapper revive one by one. */
  lemma WrapperMembers(items: seq<Json>)
    requires ReviveItems(items).Ok?
    ensures var members := [Prop("__map", JBool(true)), Prop("values", JArr(items))];
      forall p :: p in members ==> p.value < MapWrapper(items)
    ensures var members := [Prop("__map", JBool(true)), Prop("values", JArr(items))];
      ReviveProps(MapWrapper(items), members)
        == Ok([Prop("__map", DBool(true)), Prop("values", DArr(ReviveItems(items).value))])
  {
    var j := MapWrapper(items);
    var members := [Prop("__map", JBool(true)), Prop("values", JArr(items))];
    var ds := ReviveItems(items).value;
    assert members[..1] == [Prop("__map", JBool(true))];
    assert members[..1][..0] == [];
    assert ReviveProps(j, members[..1][..0]) == Ok([]);
    assert [] + [Prop("__map", DBool(true))] == [Prop("__map", DBool(true))];
    assert ReviveProps(j, members[..1]) == Ok([Prop("__map", DBool(true))]);
    assert [Prop("__map", DBool(true))] + [Prop("values", DArr(ds))] == [Prop("__map", DBool(true)), Prop("values", DArr(ds))];
  }

  /** An object whose revived properties have a truthy `__map` revives through `new Map`. */
  lemma ReviveTagged(j: Json, props: seq<Prop<DValue>>)
    requires j.JObj? && (forall p :: p in Collect(j.members) ==> p.value < j)
    requires ReviveProps(j, Collect(j.members)) == Ok(props) && DTruthy(Member(props, "__map"))
    ensures Revive(j) ==
      match NewMap(Member(props, "values"))
      case Err(e) => Err(e)
      case Ok(entries) => Ok(DMap(entries))
  {
  }

  /** The revived wrapper's `__map` is truthy and its `values` are the revived entries. */
  lemma WrapperProps(ds: seq<DValue>)
    ensures var props := [Prop("__map", DBool(true)), Prop("values", DArr(ds))];
      DTruthy(Member(props, "__map")) && Member(props, "values") == DArr(ds)
  {
    var props := [Prop("__map", DBool(true)), Prop("values", DArr(ds))];
    assert Get(props, "__map") == Some(DBool(true));
    assert Get(props[1..], "values") == Some(DArr(ds));
  }

  /** The tagged wrapper revives to `new Map(values)` over its revived `[key, value]` arrays. */
  lemma ReviveMapWrapper(items: seq<Json>)
    requires ReviveItems(items).Ok?
    ensures Revive(MapWrapper(items)) ==
      match AddEntries([], ReviveItems(items).value)
      case Err(e) => Err(e)
      case Ok(entries) => Ok(DMap(entries))
  {
    var j := MapWrapper(items);
    var members := [Prop("__map", JBool(true)), Prop("values", JArr(items))];
    var ds := ReviveItems(items).value;
    var props := [Prop("__map", DBool(true)), Prop("values", DArr(ds))];
    assert j == JObj(members);
    WrapperCollect(items);
    WrapperMembers(items);
    WrapperProps(ds);
    ReviveTagged(j, props);
  }

  /**
   * A `Map` whose keys are distinct primitives and whose values are primitives is written as
   * `{"__map":true,"values":[[k,v],...]}`, stays in `seen`, and decodes to a `Map` with the
   * same entries in the same order.
   */
  lemma MapRoundTrip(h: Heap, m: Ref, seen: set<Ref>)
    requires Closed(h) && m in h && h[m].MapNode? && m !in seen
    requires PrimitivePairs(h[m].pairs)
    requires forall i, j :: 0 <= i < j < |h[m].pairs| ==> h[m].pairs[i].key != h[m].pairs[j].key
    ensures var c := CanonRef(h, m, seen);
      && c.Ok? && c.value.seen == seen + {m} && c.value.json.Some?
      && Revive(c.value.json.value) == Ok(DMap(DecodedEntries(h[m].pairs)))
  {
    var pairs := h[m].pairs;
    CanonPairsPrimitive(h, pairs, seen + {m});
    var items := CanonPairs(h, pairs, seen + {m}).value.items;
    assert CanonRef(h, m, seen) == Ok(Encoded(Some(MapWrapper(items)), seen + {m}));
    WrapperRevives(pairs, items);
  }

  /** The wrapper around the written entries of a `Map` of primitives revives to the same entries. */
  lemma WrapperRevives(pairs: seq<Pair>, items: seq<Json>)
    requires PrimitivePairs(pairs)
    requires forall i, j :: 0 <= i < j < |pairs| ==> pairs[i].key != pairs[j].key
    requires |items| == |pairs|
    requires forall i :: 0 <= i < |pairs| ==>
      Revive(items[i]) == Ok(DArr([DecodedScalar(pairs[i].key), DecodedScalar(pairs[i].value)]))
    ensures Revive(MapWrapper(items)) == Ok(DMap(DecodedEntries(pairs)))
  {
    ReviveItemsEach(items);
    ReviveMapWrapper(items);
    var ds := ReviveItems(items).value;
    DistinctDecodedKeys(pairs);
    AddEntriesFresh([], ds, DecodedKeys(pairs), DecodedValues(pairs));
    assert AddEntries([], ds).value == DecodedEntries(pairs);
  }

  /** Reviving the properties of an object with a single member. */
  lemma ReviveOne(parent: Json, p: Prop<Json>)
    requires p.value < parent
    ensures ReviveProps(parent, [p]) == match Revive(p.value)
      case Err(e) => Err(e)
      case Ok(d) => Ok([Prop(p.key, d)])
  {
    assert [p][..0] == [];
    assert ReviveProps(parent, [p][..0]) == Ok([]);
    match Revive(p.value)
    case Err(e) =>
    case Ok(d) => assert [] + [Prop(p.key, d)] == [Prop(p.key, d)];
  }

  /**
   * A plain object that happens to have a truthy `__map` property and no `values` revives
   * as an empty `Map`: the tag is not escaped on the way out.
   */
  lemma TaggedObjectBecomesMap()
    ensures Revive(JObj([Prop("__map", JBool(true))])) == Ok(DMap([]))
  {
    var members := [Prop("__map", JBool(true))];
    var j := JObj(members);
    var props := [Prop("__map", DBool(true))];
    CollectDistinct(members);
    ReviveOne(j, members[0]);
    assert ReviveProps(j, Collect(j.members)) == Ok(props);
    assert Get(props, "__map") == Some(DBool(true)) && Get(props, "values") == None;
    assert Member(props, "values") == DUndefined;
    ReviveTagged(j, props);
    assert NewMap(DUndefined) == Ok([]);
  }

  /** With a `values` that is a number, the revived object is not iterable and parsing throws. */
  lemma TaggedNumberThrows()
    ensures Revive(JObj([Prop("__map", JNum(1)), Prop("values", JNum(2))])) == Err(NotIterable)
  {
    var members := [Prop("__map", JNum(1)), Prop("values", JNum(2))];
    CollectDistinct(members);
    assert members[..1] == [Prop("__map", JNum(1))];
    assert members[..1][..0] == [];
  }

  // ----- Every acyclic graph decodes to its canonical copy -----

  /** `|| 'null'` on the decoded side: a value without output decodes as `null`. */
  function OrDNull(d: Option<DValue>): DValue {
    if d.Some? then d.value else DNull
  }

  /** `map.set` for each entry in turn, as `new Map` does with the entries it is given. */
  function SetAll(entries: seq<Entry>, es: seq<Entry>): seq<Entry>
    decreases |es|
  {
    if es == [] then entries else SetAll(MapSet(entries, es[0].key, es[0].value), es[1..])
  }

  /**
   * What `parse(stringify(v))` gives back for `v` in an acyclic heap without `__map`
   * properties, or `None` where nothing is written: scalars decode to themselves (`NaN` and
   * the infinities to `null`); arrays element by element, `null` for an element without
   * output; plain objects with their properties in sorted key order, those without output
   * dropped; `Map`s as a new `Map` built from their decoded entries in order.
   */
  function Decoded(h: Heap, rank: map<Ref, nat>, v: Val, b: nat): Option<DValue>
    requires Closed(h) && Ranked(h, rank) && PtrsIn(v, h) && RankedBelow(v, rank, b)
    decreases b, v, 1
  {
    match v
    case Undefined => None
    case Func => None
    case Num(n) => Some(DNum(n))
    case NaN => Some(DNull)
    case Infinity(_) => Some(DNull)
    case Null => Some(DNull)
    case Bool(x) => Some(DBool(x))
    case Str(s) => Some(DStr(s))
    case Arr(items) => Some(DArr(DecodedItems(h, rank, items, b)))
    case Ptr(r) =>
      match h[r]
      case Plain(props) => Some(DObj(DecodedProps(h, rank, props, KeyOrder.Sort(Keys(props)), rank[r])))
      case MapNode(pairs) => Some(DMap(SetAll([], DecodedPairs(h, rank, pairs, rank[r]))))
  }

  function DecodedItems(h: Heap, rank: map<Ref, nat>, items: seq<Val>, b: nat): (r: seq<DValue>)
    requires Closed(h) && Ranked(h, rank)
    requires forall i :: 0 <= i < |items| ==> PtrsIn(items[i], h) && RankedBelow(items[i], rank, b)
    ensures |r| == |items|
    decreases b, items
  {
    if items == [] then []
    else DecodedItems(h, rank, items[..|items| - 1], b) + [OrDNull(Decoded(h, rank, items[|items| - 1], b))]
  }

  function DecodedProps(h: Heap, rank: map<Ref, nat>, props: seq<Prop<Val>>, keys: seq<string>, b: nat)
    : (r: seq<Prop<DValue>>)
    requires Closed(h) && Ranked(h, rank)
    requires forall i :: 0 <= i < |props| ==> PtrsIn(props[i].value, h) && RankedBelow(props[i].value, rank, b)
    ensures forall p :: p in r ==> Get(props, p.key).Some?
    decreases b, props, |keys|
  {
    if keys == [] then []
    else
      var prev := DecodedProps(h, rank, props, keys[..|keys| - 1], b);
      var i := IndexOf(props, keys[|keys| - 1]);
      if i < 0 then prev
      else
        assert props[i] in props;
        match Decoded(h, rank, props[i].value, b)
        case None => prev
        case Some(d) => prev + [Prop(keys[|keys| - 1], d)]
  }

  function DecodedPairs(h: Heap, rank: map<Ref, nat>, pairs: seq<Pair>, b: nat): (r: seq<Entry>)
    requires Closed(h) && Ranked(h, rank)
    requires forall i :: 0 <= i < |pairs| ==> PairPtrsIn(pairs[i], h) && PairRankedBelow(pairs[i], rank, b)
    ensures |r| == |pairs|
    decreases b, pairs
  {
    if pairs == [] then []
    else
      DecodedPairs(h, rank, pairs[..|pairs| - 1], b) + [DecodedEntry(h, rank, pairs[|pairs| - 1], b)]
  }

  /** A `Map` entry with both halves decoded, `null` standing for a half without output. */
  function DecodedEntry(h: Heap, rank: map<Ref, nat>, p: Pair, b: nat): Entry
    requires Closed(h) && Ranked(h, rank) && PairPtrsIn(p, h) && PairRankedBelow(p, rank, b)
    decreases b, p
  {
    Entry(OrDNull(Decoded(h, rank, p.key, b)), OrDNull(Decoded(h, rank, p.value, b)))
  }

  /** The text written for a value (`None`: nothing written) parses back to `d`. */
  predicate RevivesTo(out: Option<Json>, d: Option<DValue>) {
    match out
    case None => d.None?
    case Some(j) => d.Some? && Revive(j) == Ok(d.value)
  }

  /**
   * Whatever the encoder writes for a value of an acyclic heap without `__map` properties
   * parses back to `Decoded` of that value, `Map`s included.
   */
  lemma {:induction false} CanonDecodes(h: Heap, rank: map<Ref, nat>, v: Val, seen: set<Ref>, b: nat)
    requires Closed(h) && Ranked(h, rank) && NoTag(h) && PtrsIn(v, h) && RankedBelow(v, rank, b)
    ensures var c := Canon(h, v, seen);
      c.Ok? ==> RevivesTo(c.value.json, Decoded(h, rank, v, b))
    decreases b, v, 1
  {
    match v
    case Arr(items) =>
      ItemsDecode(h, rank, items, seen, b);
    case Ptr(r) =>
      if r !in seen {
        match h[r]
        case Plain(props) => ObjectDecodes(h, rank, r, seen);
        case MapNode(pairs) => MapDecodes(h, rank, r, seen);
      }
    case _ =>
  }

  lemma {:induction false} ItemsDecode(h: Heap, rank: map<Ref, nat>, items: seq<Val>, seen: set<Ref>, b: nat)
    requires Closed(h) && Ranked(h, rank) && NoTag(h)
    requires forall i :: 0 <= i < |items| ==> PtrsIn(items[i], h) && RankedBelow(items[i], rank, b)
    ensures var c := CanonItems(h, items, seen);
      c.Ok? ==> ReviveItems(c.value.items) == Ok(DecodedItems(h, rank, items, b))
    decreases b, items
  {
    if items != [] {
      var n := |items| - 1;
      var prev := CanonItems(h, items[..n], seen);
      ItemsDecode(h, rank, items[..n], seen, b);
      if prev.Ok? {
        CanonDecodes(h, rank, items[n], prev.value.seen, b);
        var c := Canon(h, items[n], prev.value.seen);
        if c.Ok? {
          var x := OrNull(c.value.json);
          assert (prev.value.items + [x])[..n] == prev.value.items;
        }
      }
    }
  }

  /** Distinct names in strictly increasing order. */
  lemma SortedDistinct(members: seq<Prop<Json>>)
    requires KeyOrder.StrictlySorted(Keys(members))
    ensures DistinctKeys(members)
  {
    forall i, j | 0 <= i < j < |members| ensures members[i].key != members[j].key {
      assert Keys(members)[i] == members[i].key && Keys(members)[j] == members[j].key;
      KeyOrder.BelowIrreflexive(members[i].key);
    }
  }

  /** A plain object is written with its sorted members and parses back to them, untagged. */
  lemma ObjectDecodes(h: Heap, rank: map<Ref, nat>, r: Ref, seen: set<Ref>)
    requires Closed(h) && Ranked(h, rank) && NoTag(h) && r in h && h[r].Plain? && r !in seen
    ensures var c := CanonRef(h, r, seen);
      c.Ok? ==> RevivesTo(c.value.json, Decoded(h, rank, Ptr(r), rank[r] + 1))
    decreases rank[r] + 1, Ptr(r), 0
  {
    // The steps below rest on the contracts of these functions, not on their definitions.
    hide Canon, Revive, ReviveProps, Collect;
    var props := h[r].props;
    var keys := KeyOrder.Sort(Keys(props));
    var c := CanonRef(h, r, seen);
    if c.Ok? {
      ObjectKeysSorted(h, r, seen);
      var members := c.value.json.value.members;
      assert members == CanonProps(h, props, keys, seen + {r}).value.members;
      var ds := DecodedProps(h, rank, props, keys, rank[r]);
      assert Decoded(h, rank, Ptr(r), rank[r] + 1) == Some(DObj(ds));
      hide CanonRef, CanonProps, Decoded, DecodedProps;
      var j := JObj(members);
      assert forall p :: p in members ==> p.value < j;
      PropsDecode(h, rank, props, keys, seen + {r}, rank[r], j);
      SortedDistinct(members);
      DecodedUntagged(props, ds);
      RevivePlain(members, ds);
    }
  }

  /** No decoded property is named `__map` when the object had none. */
  lemma DecodedUntagged(props: seq<Prop<Val>>, ds: seq<Prop<DValue>>)
    requires Get(props, "__map").None? && forall p :: p in ds ==> Get(props, p.key).Some?
    ensures Get(ds, "__map").None?
  {
    forall i | 0 <= i < |ds|
      ensures ds[i].key != "__map"
    {
      assert ds[i] in ds;
    }
  }

  /** An object with distinct member names, none of them `__map`, parses to a plain object of its parsed members. */
  lemma RevivePlain(members: seq<Prop<Json>>, ds: seq<Prop<DValue>>)
    requires DistinctKeys(members) && (forall p :: p in members ==> p.value < JObj(members))
    requires ReviveProps(JObj(members), members) == Ok(ds) && Get(ds, "__map").None?
    ensures Revive(JObj(members)) == Ok(DObj(ds))
  {
    CollectDistinct(members);
  }

  lemma {:induction false} PropsDecode(h: Heap, rank: map<Ref, nat>, props: seq<Prop<Val>>, keys: seq<string>, seen: set<Ref>,
                                       b: nat, parent: Json)
    requires Closed(h) && Ranked(h, rank) && NoTag(h)
    requires forall i :: 0 <= i < |props| ==> PtrsIn(props[i].value, h) && RankedBelow(props[i].value, rank, b)
    requires var c := CanonProps(h, props, keys, seen);
      c.Ok? ==> forall p :: p in c.value.members ==> p.value < parent
    ensures var c := CanonProps(h, props, keys, seen);
      c.Ok? ==> ReviveProps(parent, c.value.members) == Ok(DecodedProps(h, rank, props, keys, b))
    decreases b, props, |keys|
  {
    if keys != [] {
      // The steps below rest on the contracts of these functions, not on their definitions.
      hide Canon, CanonRef, Revive, Decoded, IndexOf, Collect, ReviveProps;
      var n := |keys| - 1;
      var prev := CanonProps(h, props, keys[..n], seen);
      var c := CanonProps(h, props, keys, seen);
      var dp := DecodedProps(h, rank, props, keys[..n], b);
      var d := DecodedProps(h, rank, props, keys, b);
      if c.Ok? {
        var i := IndexOf(props, keys[n]);
        var pm := prev.value.members;
        if i >= 0 {
          assert props[i] in props;
          var enc := Canon(h, props[i].value, prev.value.seen);
          var dv := Decoded(h, rank, props[i].value, b);
          CanonDecodes(h, rank, props[i].value, prev.value.seen, b);
          if enc.value.json.Some? {
            var j := enc.value.json.value;
            assert c.value.members == pm + [Prop(keys[n], j)];
            assert d == dp + [Prop(keys[n], dv.value)];
            hide CanonProps, DecodedProps;
            assert forall p :: p in pm ==> p in pm + [Prop(keys[n], j)];
            PropsDecode(h, rank, props, keys[..n], seen, b, parent);
            ReviveSnoc(parent, pm, keys[n], j);
          } else {
            assert c.value.members == pm && d == dp;
            hide CanonProps, DecodedProps;
            PropsDecode(h, rank, props, keys[..n], seen, b, parent);
          }
        } else {
          assert c.value.members == pm && d == dp;
          hide CanonProps, DecodedProps;
          PropsDecode(h, rank, props, keys[..n], seen, b, parent);
        }
      }
    }
  }

  /** Parsing one more member appends its parsed value. */
  lemma ReviveSnoc(parent: Json, pm: seq<Prop<Json>>, key: string, j: Json)
    requires forall p :: p in pm + [Prop(key, j)] ==> p.value < parent
    requires ReviveProps(parent, pm).Ok? && Revive(j).Ok?
    ensures ReviveProps(parent, pm + [Prop(key, j)]) == Ok(ReviveProps(parent, pm).value + [Prop(key, Revive(j).value)])
  {
    assert (pm + [Prop(key, j)])[..|pm|] == pm;
  }

  /** A `Map` is written as the tagged wrapper of its entries and parses back to a `Map` of the decoded entries. */
  lemma MapDecodes(h: Heap, rank: map<Ref, nat>, r: Ref, seen: set<Ref>)
    requires Closed(h) && Ranked(h, rank) && NoTag(h) && r in h && h[r].MapNode? && r !in seen
    ensures var c := CanonRef(h, r, seen);
      c.Ok? ==> RevivesTo(c.value.json, Decoded(h, rank, Ptr(r), rank[r] + 1))
    decreases rank[r] + 1, Ptr(r), 0
  {
    var pairs := h[r].pairs;
    var l := CanonPairs(h, pairs, seen + {r});
    if l.Ok? {
      PairsDecode(h, rank, pairs, seen + {r}, rank[r]);
      var es := DecodedPairs(h, rank, pairs, rank[r]);
      ReviveMapWrapper(l.value.items);
      AddEntriesSetAll([], es);
    }
  }

  lemma {:induction false} PairsDecode(h: Heap, rank: map<Ref, nat>, pairs: seq<Pair>, seen: set<Ref>, b: nat)
    requires Closed(h) && Ranked(h, rank) && NoTag(h)
    requires forall i :: 0 <= i < |pairs| ==> PairPtrsIn(pairs[i], h) && PairRankedBelow(pairs[i], rank, b)
    ensures var c := CanonPairs(h, pairs, seen);
      c.Ok? ==> ReviveItems(c.value.items) == Ok(EntryArrays(DecodedPairs(h, rank, pairs, b)))
    decreases b, pairs
  {
    // The steps below rest on the contracts of these functions, not on their definitions.
    hide Canon, CanonPair, Revive, Decoded, DecodedEntry, EntryArrays, ReviveProps, CanonRef;
    if pairs != [] {
      var n := |pairs| - 1;
      var prev := CanonPairs(h, pairs[..n], seen);
      PairsDecode(h, rank, pairs[..n], seen, b);
      if prev.Ok? {
        PairDecodes(h, rank, pairs[n], prev.value.seen, b);
        var c := CanonPair(h, pairs[n], prev.value.seen);
        if c.Ok? {
          var items := prev.value.items + [c.value.json.value];
          assert items[..n] == prev.value.items;
          var e := DecodedEntry(h, rank, pairs[n], b);
          var es := DecodedPairs(h, rank, pairs, b);
          assert es[..n] == DecodedPairs(h, rank, pairs[..n], b);
          assert EntryArrays(es) == EntryArrays(es[..n]) + [DArr([e.key, e.value])];
        }
      }
    }
  }

  /** An entry is written as `[key, value]` and parses back to the array of its decoded halves. */
  lemma {:induction false} PairDecodes(h: Heap, rank: map<Ref, nat>, p: Pair, seen: set<Ref>, b: nat)
    requires Closed(h) && Ranked(h, rank) && NoTag(h) && PairPtrsIn(p, h) && PairRankedBelow(p, rank, b)
    ensures var c := CanonPair(h, p, seen);
      var e := DecodedEntry(h, rank, p, b);
      c.Ok? ==> Revive(c.value.json.value) == Ok(DArr([e.key, e.value]))
    decreases b, p
  {
    var k := Canon(h, p.key, seen);
    CanonDecodes(h, rank, p.key, seen, b);
    if k.Ok? {
      CanonDecodes(h, rank, p.value, k.value.seen, b);
      var w := Canon(h, p.value, k.value.seen);
      if w.Ok? {
        var a, z := OrNull(k.value.json), OrNull(w.value.json);
        var da, dz := OrDNull(Decoded(h, rank, p.key, b)), OrDNull(Decoded(h, rank, p.value, b));
        assert CanonPair(h, p, seen).value.json.value == JArr([a, z]);
        assert ReviveItems([a]) == Ok([da]) by {
          assert [a][..0] == [];
          assert [] + [da] == [da];
        }
        assert ReviveItems([a, z]) == Ok([da, dz]) by {
          assert [a, z][..1] == [a];
          assert [da] + [dz] == [da, dz];
        }
      }
    }
  }

  /** `new Map` over `[key, value]` arrays sets each entry in turn. */
  lemma {:induction false} AddEntriesSetAll(entries: seq<Entry>, es: seq<Entry>)
    ensures AddEntries(entries, EntryArrays(es)) == Ok(SetAll(entries, es))
    decreases |es|
  {
    if es != [] {
      assert EntryArrays(es)[1..] == EntryArrays(es[1..]);
      AddEntriesSetAll(MapSet(entries, es[0].key, es[0].value), es[1..]);
    }
  }

  /**
   * `parse(stringify(v))`: for an acyclic value graph without `__map` properties in which no
   * `Map` is reached twice, `stringify` writes a text and parsing it gives `Decoded(v)`.
   */
  lemma ParseStringify(h: Heap, rank: map<Ref, nat>, v: Val, b: nat)
    requires Closed(h) && Ranked(h, rank) && NoTag(h) && PtrsIn(v, h) && RankedBelow(v, rank, b)
    requires MapsReached(h, rank, v, b).Some?
    ensures Canon(h, v, {}).Ok? && RevivesTo(Canon(h, v, {}).value.json, Decoded(h, rank, v, b))
  {
    StringifyMapsOnce(h, rank, v, b);
    CanonDecodes(h, rank, v, {}, b);
  }
}
