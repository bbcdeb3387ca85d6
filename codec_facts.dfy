/**
 * What the encoder of src/worldSaver.js:86-130 guarantees, stated over the `Canon`
 * specification that the imperative `Codec.StringifyInner` is proved to follow.
 */
module CodecFacts {
  import opened Wrappers
  import opened JsValue
  import opened Json
  import opened Codec
  import KeyOrder

  /** No `Map` anywhere in the heap. */
  predicate NoMaps(h: Heap) {
    forall r :: r in h ==> h[r].Plain?
  }

  // ----- Cycle detection: only cycles and shared `Map`s throw -----

  /** Every reference stored directly in `v` (through arrays) has rank below `b`. */
  predicate RankedBelow(v: Val, rank: map<Ref, nat>, b: nat) {
    match v
    case Ptr(r) => r in rank && rank[r] < b
    case Arr(items) => forall i :: 0 <= i < |items| ==> RankedBelow(items[i], rank, b)
    case _ => true
  }

  /** `rank` witnesses that the object graph has no cycle: every object points only lower. */
  predicate Ranked(h: Heap, rank: map<Ref, nat>) {
    forall r :: r in h ==> r in rank && NodeRankedBelow(h[r], rank, rank[r])
  }

  predicate NodeRankedBelow(n: Node, rank: map<Ref, nat>, b: nat) {
    match n
    case Plain(props) => forall i :: 0 <= i < |props| ==> RankedBelow(props[i].value, rank, b)
    case MapNode(pairs) =>
      forall i :: 0 <= i < |pairs| ==> RankedBelow(pairs[i].key, rank, b) && RankedBelow(pairs[i].value, rank, b)
  }

  /** Everything in `seen` is ranked at least `b`. */
  predicate SeenFrom(seen: set<Ref>, rank: map<Ref, nat>, b: nat) {
    forall s :: s in seen && s in rank ==> rank[s] >= b
  }

  /**
   * An acyclic value graph without `Map`s always encodes, and leaves `seen` as it found it:
   * each plain object is taken out of `seen` once its entries are written.
   */
  lemma {:induction false} CanonAcyclic(h: Heap, rank: map<Ref, nat>, v: Val, seen: set<Ref>, b: nat)
    requires Closed(h) && NoMaps(h) && Ranked(h, rank) && PtrsIn(v, h)
    requires RankedBelow(v, rank, b) && SeenFrom(seen, rank, b)
    ensures Canon(h, v, seen).Ok? && Canon(h, v, seen).value.seen == seen
    decreases |h.Keys - seen|, v, 1
  {
    match v
    case Arr(items) =>
      CanonItemsAcyclic(h, rank, items, seen, b);
    case Ptr(r) =>
      CanonRefAcyclic(h, rank, r, seen);
    case _ =>
  }

  lemma {:induction false} CanonRefAcyclic(h: Heap, rank: map<Ref, nat>, r: Ref, seen: set<Ref>)
    requires Closed(h) && NoMaps(h) && Ranked(h, rank) && r in h && r in rank
    requires SeenFrom(seen, rank, rank[r] + 1)
    ensures CanonRef(h, r, seen).Ok? && CanonRef(h, r, seen).value.seen == seen
    decreases |h.Keys - seen|, Ptr(r), 0
  {
    assert r !in seen;
    assert h.Keys - (seen + {r}) == (h.Keys - seen) - {r};
    var props := h[r].props;
    CanonPropsAcyclic(h, rank, props, KeyOrder.Sort(Keys(props)), seen + {r}, rank[r]);
  }

  lemma {:induction false} CanonItemsAcyclic(h: Heap, rank: map<Ref, nat>, items: seq<Val>, seen: set<Ref>, b: nat)
    requires Closed(h) && NoMaps(h) && Ranked(h, rank)
    requires forall i :: 0 <= i < |items| ==> PtrsIn(items[i], h) && RankedBelow(items[i], rank, b)
    requires SeenFrom(seen, rank, b)
    ensures CanonItems(h, items, seen).Ok? && CanonItems(h, items, seen).value.seen == seen
    decreases |h.Keys - seen|, items
  {
    if items != [] {
      CanonItemsAcyclic(h, rank, items[..|items| - 1], seen, b);
      CanonAcyclic(h, rank, items[|items| - 1], seen, b);
    }
  }

  lemma {:induction false} CanonPropsAcyclic(h: Heap, rank: map<Ref, nat>, props: seq<Prop<Val>>, keys: seq<string>, seen: set<Ref>, b: nat)
    requires Closed(h) && NoMaps(h) && Ranked(h, rank)
    requires forall i :: 0 <= i < |props| ==> PtrsIn(props[i].value, h) && RankedBelow(props[i].value, rank, b)
    requires SeenFrom(seen, rank, b)
    ensures CanonProps(h, props, keys, seen).Ok? && CanonProps(h, props, keys, seen).value.seen == seen
    decreases |h.Keys - seen|, props, |keys|
  {
    if keys != [] {
      CanonPropsAcyclic(h, rank, props, keys[..|keys| - 1], seen, b);
      var i := IndexOf(props, keys[|keys| - 1]);
      if i >= 0 {
        assert props[i] in props;
        CanonAcyclic(h, rank, props[i].value, seen, b);
      }
    }
  }

  /** `stringify` of an acyclic value graph without `Map`s never throws. */
  lemma StringifyAcyclic(h: Heap, rank: map<Ref, nat>, v: Val, b: nat)
    requires Closed(h) && NoMaps(h) && Ranked(h, rank) && PtrsIn(v, h) && RankedBelow(v, rank, b)
    ensures Canon(h, v, {}).Ok?
  {
    CanonAcyclic(h, rank, v, {}, b);
  }

  // ----- Acyclic graphs whose `Map`s are each reached once -----

  /** The `Map`s of the heap ranked below `b`. */
  predicate MapsBelow(h: Heap, rank: map<Ref, nat>, maps: set<Ref>, b: nat) {
    forall x :: x in maps ==> x in h && h[x].MapNode? && x in rank && rank[x] < b
  }

  /**
   * The `Map`s entered while `v` is written in an acyclic heap, or `None` when the write
   * would reach one of them a second time (through two elements, two properties or two
   * halves of an entry).
   */
  function MapsReached(h: Heap, rank: map<Ref, nat>, v: Val, b: nat): (r: Option<set<Ref>>)
    requires Closed(h) && Ranked(h, rank) && PtrsIn(v, h) && RankedBelow(v, rank, b)
    ensures r.Some? ==> MapsBelow(h, rank, r.value, b)
    decreases b, v, 1
  {
    match v
    case Ptr(ref) =>
      (match NodeMapsReached(h, rank, h[ref], rank[ref])
       case None => None
       case Some(m) => if h[ref].MapNode? then Some(m + {ref}) else Some(m))
    case Arr(items) => ItemsMapsReached(h, rank, items, b)
    case _ => Some({})
  }

  function NodeMapsReached(h: Heap, rank: map<Ref, nat>, n: Node, b: nat): (r: Option<set<Ref>>)
    requires Closed(h) && Ranked(h, rank) && NodePtrsIn(n, h) && NodeRankedBelow(n, rank, b)
    ensures r.Some? ==> MapsBelow(h, rank, r.value, b)
    decreases b, n
  {
    match n
    case Plain(props) => KeysMapsReached(h, rank, props, KeyOrder.Sort(Keys(props)), b)
    case MapNode(pairs) => PairsMapsReached(h, rank, pairs, b)
  }

  function ItemsMapsReached(h: Heap, rank: map<Ref, nat>, items: seq<Val>, b: nat): (r: Option<set<Ref>>)
    requires Closed(h) && Ranked(h, rank)
    requires forall i :: 0 <= i < |items| ==> PtrsIn(items[i], h) && RankedBelow(items[i], rank, b)
    ensures r.Some? ==> MapsBelow(h, rank, r.value, b)
    decreases b, items
  {
    if items == [] then Some({})
    else
      match ItemsMapsReached(h, rank, items[..|items| - 1], b)
      case None => None
      case Some(a) =>
        match MapsReached(h, rank, items[|items| - 1], b)
        case None => None
        case Some(c) => if a !! c then Some(a + c) else None
  }

  function KeysMapsReached(h: Heap, rank: map<Ref, nat>, props: seq<Prop<Val>>, keys: seq<string>, b: nat)
    : (r: Option<set<Ref>>)
    requires Closed(h) && Ranked(h, rank)
    requires forall i :: 0 <= i < |props| ==> PtrsIn(props[i].value, h) && RankedBelow(props[i].value, rank, b)
    ensures r.Some? ==> MapsBelow(h, rank, r.value, b)
    decreases b, props, |keys|
  {
    if keys == [] then Some({})
    else
      match KeysMapsReached(h, rank, props, keys[..|keys| - 1], b)
      case None => None
      case Some(a) =>
        var i := IndexOf(props, keys[|keys| - 1]);
        if i < 0 then Some(a)
        else
          assert props[i] in props;
          match MapsReached(h, rank, props[i].value, b)
          case None => None
          case Some(c) => if a !! c then Some(a + c) else None
  }

  function PairsMapsReached(h: Heap, rank: map<Ref, nat>, pairs: seq<Pair>, b: nat): (r: Option<set<Ref>>)
    requires Closed(h) && Ranked(h, rank)
    requires forall i :: 0 <= i < |pairs| ==> PairPtrsIn(pairs[i], h) && PairRankedBelow(pairs[i], rank, b)
    ensures r.Some? ==> MapsBelow(h, rank, r.value, b)
    decreases b, pairs
  {
    if pairs == [] then Some({})
    else
      match PairsMapsReached(h, rank, pairs[..|pairs| - 1], b)
      case None => None
      case Some(a) =>
        match PairMapsReached(h, rank, pairs[|pairs| - 1], b)
        case None => None
        case Some(c) => if a !! c then Some(a + c) else None
  }

  predicate PairRankedBelow(p: Pair, rank: map<Ref, nat>, b: nat) {
    RankedBelow(p.key, rank, b) && RankedBelow(p.value, rank, b)
  }

  function PairMapsReached(h: Heap, rank: map<Ref, nat>, p: Pair, b: nat): (r: Option<set<Ref>>)
    requires Closed(h) && Ranked(h, rank) && PairPtrsIn(p, h) && PairRankedBelow(p, rank, b)
    ensures r.Some? ==> MapsBelow(h, rank, r.value, b)
    decreases b, p
  {
    match MapsReached(h, rank, p.key, b)
    case None => None
    case Some(k) =>
      match MapsReached(h, rank, p.value, b)
      case None => None
      case Some(w) => if k !! w then Some(k + w) else None
  }

  /**
   * What `seen` holds of the objects ranked below `b` are `Map`s outside `maps`: the write of
   * a value below `b` that reaches `maps` meets nothing in `seen`.
   */
  predicate SeenApart(h: Heap, rank: map<Ref, nat>, seen: set<Ref>, b: nat, maps: set<Ref>) {
    forall x :: x in seen && x in h && x in rank && rank[x] < b ==> h[x].MapNode? && x !in maps
  }

  /**
   * An acyclic value graph in which no `Map` is reached twice always encodes: the `Map`s it
   * reaches are left in `seen`, every plain object is taken out again.
   */
  lemma {:induction false} CanonMapsOnce(h: Heap, rank: map<Ref, nat>, v: Val, seen: set<Ref>, b: nat, maps: set<Ref>)
    requires Closed(h) && Ranked(h, rank) && PtrsIn(v, h) && RankedBelow(v, rank, b)
    requires MapsReached(h, rank, v, b) == Some(maps) && SeenApart(h, rank, seen, b, maps)
    ensures Canon(h, v, seen).Ok? && Canon(h, v, seen).value.seen == seen + maps
    decreases b, v, 1
  {
    match v
    case Ptr(r) =>
      RefMapsOnce(h, rank, r, seen, b, maps);
    case Arr(items) =>
      ItemsMapsOnce(h, rank, items, seen, b, maps);
    case _ =>
  }

  lemma {:induction false} RefMapsOnce(h: Heap, rank: map<Ref, nat>, r: Ref, seen: set<Ref>, b: nat, maps: set<Ref>)
    requires Closed(h) && Ranked(h, rank) && r in h && r in rank && rank[r] < b
    requires MapsReached(h, rank, Ptr(r), b) == Some(maps) && SeenApart(h, rank, seen, b, maps)
    ensures CanonRef(h, r, seen).Ok? && CanonRef(h, r, seen).value.seen == seen + maps
    decreases b, Ptr(r), 0
  {
    var m := NodeMapsReached(h, rank, h[r], rank[r]).value;
    assert r !in seen;
    assert r !in m;
    assert SeenApart(h, rank, seen + {r}, rank[r], m);
    match h[r]
    case Plain(props) =>
      KeysMapsOnce(h, rank, props, KeyOrder.Sort(Keys(props)), seen + {r}, rank[r], m);
      assert seen + {r} + m - {r} == seen + maps;
    case MapNode(pairs) =>
      PairsMapsOnce(h, rank, pairs, seen + {r}, rank[r], m);
      assert seen + {r} + m == seen + maps;
  }

  lemma {:induction false} ItemsMapsOnce(h: Heap, rank: map<Ref, nat>, items: seq<Val>, seen: set<Ref>, b: nat, maps: set<Ref>)
    requires Closed(h) && Ranked(h, rank)
    requires forall i :: 0 <= i < |items| ==> PtrsIn(items[i], h) && RankedBelow(items[i], rank, b)
    requires ItemsMapsReached(h, rank, items, b) == Some(maps) && SeenApart(h, rank, seen, b, maps)
    ensures CanonItems(h, items, seen).Ok? && CanonItems(h, items, seen).value.seen == seen + maps
    decreases b, items
  {
    if items != [] {
      var last := items[|items| - 1];
      var a := ItemsMapsReached(h, rank, items[..|items| - 1], b).value;
      var c := MapsReached(h, rank, last, b).value;
      ItemsMapsOnce(h, rank, items[..|items| - 1], seen, b, a);
      assert SeenApart(h, rank, seen + a, b, c);
      CanonMapsOnce(h, rank, last, seen + a, b, c);
    }
  }

  lemma {:induction false} KeysMapsOnce(h: Heap, rank: map<Ref, nat>, props: seq<Prop<Val>>, keys: seq<string>, seen: set<Ref>, b: nat, maps: set<Ref>)
    requires Closed(h) && Ranked(h, rank)
    requires forall i :: 0 <= i < |props| ==> PtrsIn(props[i].value, h) && RankedBelow(props[i].value, rank, b)
    requires KeysMapsReached(h, rank, props, keys, b) == Some(maps) && SeenApart(h, rank, seen, b, maps)
    ensures CanonProps(h, props, keys, seen).Ok? && CanonProps(h, props, keys, seen).value.seen == seen + maps
    decreases b, props, |keys|
  {
    if keys != [] {
      var prefix := keys[..|keys| - 1];
      var a := KeysMapsReached(h, rank, props, prefix, b).value;
      KeysMapsOnce(h, rank, props, prefix, seen, b, a);
      var i := IndexOf(props, keys[|keys| - 1]);
      if i >= 0 {
        assert props[i] in props;
        var c := MapsReached(h, rank, props[i].value, b).value;
        assert SeenApart(h, rank, seen + a, b, c);
        CanonMapsOnce(h, rank, props[i].value, seen + a, b, c);
      }
    }
  }

  lemma {:induction false} PairsMapsOnce(h: Heap, rank: map<Ref, nat>, pairs: seq<Pair>, seen: set<Ref>, b: nat, maps: set<Ref>)
    requires Closed(h) && Ranked(h, rank)
    requires forall i :: 0 <= i < |pairs| ==> PairPtrsIn(pairs[i], h) && PairRankedBelow(pairs[i], rank, b)
    requires PairsMapsReached(h, rank, pairs, b) == Some(maps) && SeenApart(h, rank, seen, b, maps)
    ensures CanonPairs(h, pairs, seen).Ok? && CanonPairs(h, pairs, seen).value.seen == seen + maps
    decreases b, pairs
  {
    if pairs != [] {
      var last := pairs[|pairs| - 1];
      var a := PairsMapsReached(h, rank, pairs[..|pairs| - 1], b).value;
      var c := PairMapsReached(h, rank, last, b).value;
      PairsMapsOnce(h, rank, pairs[..|pairs| - 1], seen, b, a);
      assert SeenApart(h, rank, seen + a, b, c);
      PairMapsOnce(h, rank, last, seen + a, b, c);
    }
  }

  lemma {:induction false} PairMapsOnce(h: Heap, rank: map<Ref, nat>, p: Pair, seen: set<Ref>, b: nat, maps: set<Ref>)
    requires Closed(h) && Ranked(h, rank) && PairPtrsIn(p, h) && PairRankedBelow(p, rank, b)
    requires PairMapsReached(h, rank, p, b) == Some(maps) && SeenApart(h, rank, seen, b, maps)
    ensures CanonPair(h, p, seen).Ok? && CanonPair(h, p, seen).value.seen == seen + maps
    decreases b, p
  {
    var k := MapsReached(h, rank, p.key, b).value;
    var w := MapsReached(h, rank, p.value, b).value;
    CanonMapsOnce(h, rank, p.key, seen, b, k);
    assert SeenApart(h, rank, seen + k, b, w);
    CanonMapsOnce(h, rank, p.value, seen + k, b, w);
  }

  /**
   * `stringify` of an acyclic value graph in which no `Map` is reached twice never throws,
   * `Map`s included.
   */
  lemma StringifyMapsOnce(h: Heap, rank: map<Ref, nat>, v: Val, b: nat)
    requires Closed(h) && Ranked(h, rank) && PtrsIn(v, h) && RankedBelow(v, rank, b)
    requires MapsReached(h, rank, v, b).Some?
    ensures Canon(h, v, {}).Ok? && Canon(h, v, {}).value.seen == MapsReached(h, rank, v, b).value
  {
    CanonMapsOnce(h, rank, v, {}, b, MapsReached(h, rank, v, b).value);
  }

  /**
   * A `Map` stays in `seen` after it is written, so the same `Map` reached twice (here as both
   * elements of an array) throws, even though there is no cycle.
   */
  lemma SharedMapThrows(h: Heap, m: Ref, seen: set<Ref>)
    requires Closed(h) && m in h && h[m].MapNode?
    ensures Canon(h, Arr([Ptr(m), Ptr(m)]), seen).Err?
  {
    var items := [Ptr(m), Ptr(m)];
    assert items[..1] == [Ptr(m)] && [Ptr(m)][..0] == [];
    assert CanonItems(h, [], seen) == Ok(Listed([], seen));
    var first := Canon(h, Ptr(m), seen);
    assert first == CanonRef(h, m, seen);
    assert items[..0] == [];
    CanonItemsGrows(h, items, 0, seen, Listed([], seen));
    if first.Ok? {
      var l := CanonPairs(h, h[m].pairs, seen + {m});
      assert l.Ok? && first.value.seen == l.value.seen;
      var acc := Listed([OrNull(first.value.json)], first.value.seen);
      assert [] + [OrNull(first.value.json)] == acc.items;
      CanonItemsGrows(h, items, 1, seen, acc);
      assert Canon(h, Ptr(m), first.value.seen) == CanonRef(h, m, first.value.seen);
    } else {
      CanonItemsErr(h, items, 1, seen);
    }
  }

  /** An object with no properties is written as `{}` and leaves `seen` as it was. */
  lemma EmptyObjectWritten(h: Heap, o: Ref, seen: set<Ref>)
    requires Closed(h) && o in h && h[o] == Plain([]) && o !in seen
    ensures Canon(h, Ptr(o), seen) == Ok(Encoded(Some(JObj([])), seen))
  {
    assert KeyOrder.Sort(Keys<Val>([])) == [];
    assert CanonProps(h, [], [], seen + {o}) == Ok(Membered([], seen + {o}));
    assert CanonRef(h, o, seen) == Ok(Encoded(Some(JObj([])), seen));
  }

  /** The same plain object twice in an array is no cycle: both copies are written. */
  lemma SharedObjectWritten()
    ensures var o := DataObj(0);
      Canon(map[o := Plain([])], Arr([Ptr(o), Ptr(o)]), {}) == Ok(Encoded(Some(JArr([JObj([]), JObj([])])), {}))
  {
    var o := DataObj(0);
    SharedEmptyWritten(map[o := Plain([])], o, {});
  }

  /** Both elements of `[o, o]` are written when `o` is an object with no properties. */
  lemma SharedEmptyWritten(h: Heap, o: Ref, seen: set<Ref>)
    requires Closed(h) && o in h && h[o] == Plain([]) && o !in seen
    ensures Canon(h, Arr([Ptr(o), Ptr(o)]), seen) == Ok(Encoded(Some(JArr([JObj([]), JObj([])])), seen))
  {
    PairEmptyWritten(h, o, seen);
  }

  /** `[o, o]`'s elements are written as `{}` twice when `o` has no properties. */
  lemma PairEmptyWritten(h: Heap, o: Ref, seen: set<Ref>)
    requires Closed(h) && o in h && h[o] == Plain([]) && o !in seen
    ensures CanonItems(h, [Ptr(o), Ptr(o)], seen) == Ok(Listed([JObj([]), JObj([])], seen))
  {
    var items := [Ptr(o), Ptr(o)];
    EmptyObjectWritten(h, o, seen);
    SingleEmptyWritten(h, o, seen);
    assert items[..1] == [Ptr(o)];
    assert [JObj([])] + [JObj([])] == [JObj([]), JObj([])];
  }

  /** `[o]` is written as `[{}]` when `o` is an object with no properties. */
  lemma SingleEmptyWritten(h: Heap, o: Ref, seen: set<Ref>)
    requires Closed(h) && o in h && h[o] == Plain([]) && o !in seen
    ensures CanonItems(h, [Ptr(o)], seen) == Ok(Listed([JObj([])], seen))
  {
    assert [Ptr(o)][..0] == [];
    assert CanonItems(h, [], seen) == Ok(Listed([], seen));
    EmptyObjectWritten(h, o, seen);
    assert [] + [JObj([])] == [JObj([])];
  }

  // ----- A reference back to an object being written throws -----

  lemma {:induction false} CanonPropsMeetsSeen(h: Heap, props: seq<Prop<Val>>, keys: seq<string>, seen: set<Ref>, j: nat, a: Ref)
    requires Closed(h) && forall i :: 0 <= i < |props| ==> PtrsIn(props[i].value, h)
    requires a in seen && j < |keys|
    requires IndexOf(props, keys[j]) >= 0 && props[IndexOf(props, keys[j])].value == Ptr(a)
    ensures CanonProps(h, props, keys, seen).Err?
    decreases |keys|
  {
    var prefix := keys[..|keys| - 1];
    if j < |keys| - 1 {
      assert prefix[j] == keys[j];
      CanonPropsMeetsSeen(h, props, prefix, seen, j, a);
    } else {
      var prev := CanonProps(h, props, prefix, seen);
      if prev.Ok? {
        var i := IndexOf(props, keys[j]);
        assert props[i] in props;
        assert a in prev.value.seen;
        assert CanonRef(h, a, prev.value.seen).Err?;
        assert Canon(h, props[i].value, prev.value.seen).Err?;
      }
    }
  }

  /**
   * While an object's entries are written it is in `seen`, and so are the objects enclosing
   * it; a property that refers back to any of them makes the call throw.
   */
  lemma PropertyToAncestorThrows(h: Heap, r: Ref, k: string, a: Ref, seen: set<Ref>)
    requires Closed(h) && r in h && h[r].Plain?
    requires Get(h[r].props, k) == Some(Ptr(a)) && a in seen + {r}
    ensures Canon(h, Ptr(r), seen).Err?
  {
    assert Canon(h, Ptr(r), seen) == CanonRef(h, r, seen);
    if r !in seen {
      var props := h[r].props;
      var j := SortedKeyIndex(props, k);
      CanonPropsMeetsSeen(h, props, KeyOrder.Sort(Keys(props)), seen + {r}, j, a);
    }
  }

  /** Every property name has a place among the sorted keys. */
  lemma SortedKeyIndex<V>(props: seq<Prop<V>>, k: string) returns (j: nat)
    requires Get(props, k).Some?
    ensures j < |KeyOrder.Sort(Keys(props))| && KeyOrder.Sort(Keys(props))[j] == k
  {
    var keys := KeyOrder.Sort(Keys(props));
    KeyOrder.SortPermutes(Keys(props));
    var i :| 0 <= i < |props| && props[i].key == k;
    assert Keys(props)[i] == k;
    assert k in multiset(keys);
    j :| 0 <= j < |keys| && keys[j] == k;
  }

  /** An object that is its own property value cannot be written. */
  lemma SelfReferenceThrows(h: Heap, r: Ref, k: string, seen: set<Ref>)
    requires Closed(h) && r in h && h[r].Plain? && Get(h[r].props, k) == Some(Ptr(r))
    ensures Canon(h, Ptr(r), seen).Err?
  {
    PropertyToAncestorThrows(h, r, k, r, seen);
  }

  lemma {:induction false} CanonPropsMeetsChild(h: Heap, props: seq<Prop<Val>>, keys: seq<string>, seen: set<Ref>, j: nat, c: Ref, k: string, a: Ref)
    requires Closed(h) && forall i :: 0 <= i < |props| ==> PtrsIn(props[i].value, h)
    requires a in seen && j < |keys|
    requires IndexOf(props, keys[j]) >= 0 && props[IndexOf(props, keys[j])].value == Ptr(c)
    requires c in h && h[c].Plain? && Get(h[c].props, k) == Some(Ptr(a))
    ensures CanonProps(h, props, keys, seen).Err?
    decreases |keys|
  {
    var prefix := keys[..|keys| - 1];
    if j < |keys| - 1 {
      assert prefix[j] == keys[j];
      CanonPropsMeetsChild(h, props, prefix, seen, j, c, k, a);
    } else {
      var prev := CanonProps(h, props, prefix, seen);
      if prev.Ok? {
        var i := IndexOf(props, keys[j]);
        assert props[i] in props;
        PropertyToAncestorThrows(h, c, k, a, prev.value.seen);
      }
    }
  }

  /**
   * Two objects that refer to each other cannot be written: the inner one meets the outer
   * one in `seen`.
   */
  lemma ChildPointsBackThrows(h: Heap, r: Ref, k: string, c: Ref, k': string, seen: set<Ref>)
    requires Closed(h) && r in h && h[r].Plain? && Get(h[r].props, k) == Some(Ptr(c))
    requires c in h && h[c].Plain? && Get(h[c].props, k') == Some(Ptr(r))
    ensures Canon(h, Ptr(r), seen).Err?
  {
    assert Canon(h, Ptr(r), seen) == CanonRef(h, r, seen);
    if r !in seen {
      var props := h[r].props;
      var j := SortedKeyIndex(props, k);
      CanonPropsMeetsChild(h, props, KeyOrder.Sort(Keys(props)), seen + {r}, j, c, k', r);
    }
  }

  /** An array with an element that cannot be written, whatever `seen` holds, throws. */
  lemma ElementThrows(h: Heap, items: seq<Val>, i: nat, seen: set<Ref>)
    requires Closed(h) && forall k :: 0 <= k < |items| ==> PtrsIn(items[k], h)
    requires i < |items| && forall s :: Canon(h, items[i], s).Err?
    ensures Canon(h, Arr(items), seen).Err?
  {
    var prev := CanonItems(h, items[..i], seen);
    if prev.Ok? {
      CanonItemsGrows(h, items, i, seen, prev.value);
      assert Canon(h, items[i], prev.value.seen).Err?;
      CanonItemsErr(h, items, i + 1, seen);
    } else {
      CanonItemsErr(h, items, i, seen);
    }
  }

  // ----- Any cycle the encoder can reach throws -----

  /** `v` holds, directly or inside arrays, a reference to an object of `s`. */
  predicate RefersInto(v: Val, s: set<Ref>) {
    match v
    case Ptr(r) => r in s
    case Arr(items) => exists i :: 0 <= i < |items| && RefersInto(items[i], s)
    case _ => false
  }

  /** One of the values written for `n` (a property value, or either half of a `Map` entry) refers into `s`. */
  predicate NodeRefersInto(n: Node, s: set<Ref>) {
    match n
    case Plain(props) => exists i :: 0 <= i < |props| && RefersInto(props[i].value, s)
    case MapNode(pairs) => exists i :: 0 <= i < |pairs| && (RefersInto(pairs[i].key, s) || RefersInto(pairs[i].value, s))
  }

  /** Every object of `s` refers to an object of `s`: following references from `s` never ends. */
  predicate CycleSet(h: Heap, s: set<Ref>) {
    forall r :: r in s ==> r in h && NodeRefersInto(h[r], s)
  }

  /**
   * A value that refers into a cycle of references cannot be written, whatever `seen`
   * holds: each object of the cycle is entered with more in `seen`, until one is met again.
   */
  lemma {:induction false} CanonMeetsCycle(h: Heap, s: set<Ref>, v: Val, seen: set<Ref>)
    requires Closed(h) && CycleSet(h, s) && PtrsIn(v, h) && RefersInto(v, s)
    ensures Canon(h, v, seen).Err?
    decreases |h.Keys - seen|, v, 1
  {
    match v
    case Ptr(r) =>
      RefMeetsCycle(h, s, r, seen);
    case Arr(items) =>
      var i :| 0 <= i < |items| && RefersInto(items[i], s);
      ItemsMeetCycle(h, s, items, i, seen);
  }

  lemma {:induction false} RefMeetsCycle(h: Heap, s: set<Ref>, r: Ref, seen: set<Ref>)
    requires Closed(h) && CycleSet(h, s) && r in s
    ensures CanonRef(h, r, seen).Err?
    decreases |h.Keys - seen|, Ptr(r), 0
  {
    // The steps below rest on the contracts they call, not on these definitions.
    hide CanonProps, CanonPairs, MapWrapper, KeyOrder.Sort;
    if r !in seen {
      assert h.Keys - (seen + {r}) == (h.Keys - seen) - {r};
      match h[r]
      case Plain(props) =>
        var i :| 0 <= i < |props| && RefersInto(props[i].value, s);
        var j := SortedKeyIndex(props, props[i].key);
        DistinctIndex(props, i);
        PropsMeetCycle(h, s, props, KeyOrder.Sort(Keys(props)), j, seen + {r});
      case MapNode(pairs) =>
        var i :| 0 <= i < |pairs| && (RefersInto(pairs[i].key, s) || RefersInto(pairs[i].value, s));
        PairsMeetCycle(h, s, pairs, i, seen + {r});
    }
  }

  lemma {:induction false} ItemsMeetCycle(h: Heap, s: set<Ref>, items: seq<Val>, i: nat, seen: set<Ref>)
    requires Closed(h) && CycleSet(h, s) && forall k :: 0 <= k < |items| ==> PtrsIn(items[k], h)
    requires i < |items| && RefersInto(items[i], s)
    ensures CanonItems(h, items, seen).Err?
    decreases |h.Keys - seen|, items
  {
    var prev := CanonItems(h, items[..i], seen);
    if prev.Ok? {
      Fewer(h, seen, prev.value.seen);
      CanonMeetsCycle(h, s, items[i], prev.value.seen);
      CanonItemsGrows(h, items, i, seen, prev.value);
      CanonItemsErr(h, items, i + 1, seen);
    } else {
      CanonItemsErr(h, items, i, seen);
    }
  }

  lemma {:induction false} PropsMeetCycle(h: Heap, s: set<Ref>, props: seq<Prop<Val>>, keys: seq<string>, j: nat, seen: set<Ref>)
    requires Closed(h) && CycleSet(h, s) && forall k :: 0 <= k < |props| ==> PtrsIn(props[k].value, h)
    requires j < |keys| && IndexOf(props, keys[j]) >= 0 && RefersInto(props[IndexOf(props, keys[j])].value, s)
    ensures CanonProps(h, props, keys, seen).Err?
    decreases |h.Keys - seen|, props, |keys|
  {
    var prev := CanonProps(h, props, keys[..j], seen);
    if prev.Ok? {
      var i := IndexOf(props, keys[j]);
      assert props[i] in props;
      Fewer(h, seen, prev.value.seen);
      CanonMeetsCycle(h, s, props[i].value, prev.value.seen);
      CanonPropsGrows(h, props, keys, j, seen, prev.value);
      CanonPropsErr(h, props, keys, j + 1, seen);
    } else {
      CanonPropsErr(h, props, keys, j, seen);
    }
  }

  lemma {:induction false} PairsMeetCycle(h: Heap, s: set<Ref>, pairs: seq<Pair>, i: nat, seen: set<Ref>)
    requires Closed(h) && CycleSet(h, s) && forall k :: 0 <= k < |pairs| ==> PairPtrsIn(pairs[k], h)
    requires i < |pairs| && (RefersInto(pairs[i].key, s) || RefersInto(pairs[i].value, s))
    ensures CanonPairs(h, pairs, seen).Err?
    decreases |h.Keys - seen|, pairs
  {
    var prev := CanonPairs(h, pairs[..i], seen);
    if prev.Ok? {
      Fewer(h, seen, prev.value.seen);
      PairMeetsCycle(h, s, pairs[i], prev.value.seen);
      CanonPairsGrows(h, pairs, i, seen, prev.value);
      CanonPairsErr(h, pairs, i + 1, seen);
    } else {
      CanonPairsErr(h, pairs, i, seen);
    }
  }

  lemma {:induction false} PairMeetsCycle(h: Heap, s: set<Ref>, p: Pair, seen: set<Ref>)
    requires Closed(h) && CycleSet(h, s) && PairPtrsIn(p, h)
    requires RefersInto(p.key, s) || RefersInto(p.value, s)
    ensures CanonPair(h, p, seen).Err?
    decreases |h.Keys - seen|, p
  {
    if RefersInto(p.key, s) {
      CanonMeetsCycle(h, s, p.key, seen);
    } else {
      var k := Canon(h, p.key, seen);
      if k.Ok? {
        Fewer(h, seen, k.value.seen);
        CanonMeetsCycle(h, s, p.value, k.value.seen);
      }
    }
  }

  /** With distinct names, a property is the first one with its name. */
  lemma DistinctIndex<V>(props: seq<Prop<V>>, i: nat)
    requires DistinctKeys(props) && i < |props|
    ensures IndexOf(props, props[i].key) == i
  {
  }

  /** Referring into a set refers into any larger set. */
  lemma {:induction false} RefersWider(v: Val, a: set<Ref>, b: set<Ref>)
    requires a <= b && RefersInto(v, a)
    ensures RefersInto(v, b)
  {
    match v
    case Ptr(_) =>
    case Arr(items) =>
      var i :| 0 <= i < |items| && RefersInto(items[i], a);
      RefersWider(items[i], a, b);
  }

  lemma NodeRefersWider(n: Node, a: set<Ref>, b: set<Ref>)
    requires a <= b && NodeRefersInto(n, a)
    ensures NodeRefersInto(n, b)
  {
    match n
    case Plain(props) =>
      var i :| 0 <= i < |props| && RefersInto(props[i].value, a);
      RefersWider(props[i].value, a, b);
    case MapNode(pairs) =>
      var i :| 0 <= i < |pairs| && (RefersInto(pairs[i].key, a) || RefersInto(pairs[i].value, a));
      if RefersInto(pairs[i].key, a) {
        RefersWider(pairs[i].key, a, b);
      } else {
        RefersWider(pairs[i].value, a, b);
      }
  }

  /**
   * `stringify` throws on any value from which a path of references `path[0]`, `path[1]`,
   * ... leads to an object that refers back to an earlier one on the path, `path[j]`: the
   * path may be of any length, each step may pass through arrays and `Map` entries.
   */
  lemma CycleReachableThrows(h: Heap, v: Val, path: seq<Ref>, j: nat)
    requires Closed(h) && PtrsIn(v, h) && j < |path|
    requires RefersInto(v, {path[0]})
    requires forall i :: 0 <= i < |path| ==> path[i] in h
    requires forall i :: 0 <= i < |path| - 1 ==> NodeRefersInto(h[path[i]], {path[i + 1]})
    requires NodeRefersInto(h[path[|path| - 1]], {path[j]})
    ensures Canon(h, v, {}).Err?
  {
    var s := set i | 0 <= i < |path| :: path[i];
    forall r | r in s ensures r in h && NodeRefersInto(h[r], s) {
      var i :| 0 <= i < |path| && path[i] == r;
      if i < |path| - 1 {
        NodeRefersWider(h[r], {path[i + 1]}, s);
      } else {
        NodeRefersWider(h[r], {path[j]}, s);
      }
    }
    RefersWider(v, {path[0]}, s);
    CanonMeetsCycle(h, s, v, {});
  }

  // ----- Object keys come out sorted, whatever order they were added in -----

  lemma SnocSorted(ms: seq<Prop<Json>>, k: string, x: Json)
    requires KeyOrder.StrictlySorted(Keys(ms))
    requires forall m :: m in ms ==> KeyOrder.Below(m.key, k)
    ensures KeyOrder.StrictlySorted(Keys(ms + [Prop(k, x)]))
  {
    var ks := Keys(ms + [Prop(k, x)]);
    forall a, b | 0 <= a < b < |ks| ensures KeyOrder.Below(ks[a], ks[b]) {
      assert (ms + [Prop(k, x)])[a] == ms[a];
      if b < |ms| {
        assert Keys(ms)[a] == ks[a] && Keys(ms)[b] == ks[b];
      } else {
        assert ms[a] in ms;
      }
    }
  }

  /** For strictly ordered `keys`, the members come out strictly ordered, each named by a key. */
  lemma {:induction false} CanonPropsKeys(h: Heap, props: seq<Prop<Val>>, keys: seq<string>, seen: set<Ref>)
    requires Closed(h) && forall i :: 0 <= i < |props| ==> PtrsIn(props[i].value, h)
    requires KeyOrder.StrictlySorted(keys)
    ensures var r := CanonProps(h, props, keys, seen);
      r.Ok? ==> KeyOrder.StrictlySorted(Keys(r.value.members)) && forall m :: m in r.value.members ==> m.key in keys
    decreases |keys|
  {
    if keys != [] {
      var prefix := keys[..|keys| - 1];
      var k := keys[|keys| - 1];
      assert forall i :: 0 <= i < |prefix| ==> prefix[i] == keys[i];
      CanonPropsKeys(h, props, prefix, seen);
      var prev := CanonProps(h, props, prefix, seen);
      var i := IndexOf(props, k);
      if prev.Ok? && i >= 0 {
        assert props[i] in props;
        var enc := Canon(h, props[i].value, prev.value.seen);
        if enc.Ok? && enc.value.json.Some? {
          forall m | m in prev.value.members ensures KeyOrder.Below(m.key, k) {
            var idx :| 0 <= idx < |prefix| && prefix[idx] == m.key;
          }
          SnocSorted(prev.value.members, k, enc.value.json.value);
        }
      }
    }
  }

  /** `x in Keys(props)` says that `props` has a property named `x`. */
  lemma InKeys<V>(props: seq<Prop<V>>, x: string)
    ensures x in Keys(props) <==> Get(props, x).Some?
  {
    if x in Keys(props) {
      var i :| 0 <= i < |props| && Keys(props)[i] == x;
    }
    if Get(props, x).Some? {
      var i :| 0 <= i < |props| && props[i].key == x;
      assert Keys(props)[i] == x;
    }
  }

  lemma DistinctNames<V>(props: seq<Prop<V>>)
    requires DistinctKeys(props)
    ensures forall i, j :: 0 <= i < j < |Keys(props)| ==> Keys(props)[i] != Keys(props)[j]
  {
  }

  /**
   * A plain object is written with its members in strictly increasing key order, and only
   * with names of its own properties.
   */
  lemma ObjectKeysSorted(h: Heap, r: Ref, seen: set<Ref>)
    requires Closed(h) && r in h && h[r].Plain?
    ensures var c := CanonRef(h, r, seen);
      c.Ok? ==>
        && c.value.json.Some? && c.value.json.value.JObj?
        && KeyOrder.StrictlySorted(Keys(c.value.json.value.members))
        && forall m :: m in c.value.json.value.members ==> Get(h[r].props, m.key).Some?
  {
    var props := h[r].props;
    var keys := KeyOrder.Sort(Keys(props));
    DistinctNames(props);
    KeyOrder.SortDistinct(Keys(props));
    KeyOrder.SortPermutes(Keys(props));
    if r !in seen {
      CanonPropsKeys(h, props, keys, seen + {r});
      var c := CanonProps(h, props, keys, seen + {r});
      if c.Ok? {
        forall m | m in c.value.members ensures Get(props, m.key).Some? {
          assert m.key in multiset(keys);
          InKeys(props, m.key);
        }
      }
    }
  }

  /** Same properties (whatever their insertion order) give the same members. */
  lemma {:induction false} CanonPropsSameProps(h: Heap, p1: seq<Prop<Val>>, p2: seq<Prop<Val>>, keys: seq<string>, seen: set<Ref>)
    requires Closed(h)
    requires forall i :: 0 <= i < |p1| ==> PtrsIn(p1[i].value, h)
    requires forall i :: 0 <= i < |p2| ==> PtrsIn(p2[i].value, h)
    requires forall k :: Get(p1, k) == Get(p2, k)
    ensures CanonProps(h, p1, keys, seen) == CanonProps(h, p2, keys, seen)
    decreases |keys|
  {
    if keys != [] {
      var k := keys[|keys| - 1];
      CanonPropsSameProps(h, p1, p2, keys[..|keys| - 1], seen);
      assert Get(p1, k) == Get(p2, k);
    }
  }

  lemma SameNames<V>(p1: seq<Prop<V>>, p2: seq<Prop<V>>)
    requires DistinctKeys(p1) && DistinctKeys(p2)
    requires forall k :: Get(p1, k).Some? <==> Get(p2, k).Some?
    ensures multiset(Keys(p1)) == multiset(Keys(p2))
  {
    forall x ensures multiset(Keys(p1))[x] == multiset(Keys(p2))[x] {
      NameCount(p1, x);
      NameCount(p2, x);
    }
  }

  /** A name occurs once among distinct property names when it is looked up, otherwise not at all. */
  lemma NameCount<V>(props: seq<Prop<V>>, x: string)
    requires DistinctKeys(props)
    ensures multiset(Keys(props))[x] == if Get(props, x).Some? then 1 else 0
  {
    DistinctNames(props);
    KeyOrder.DistinctMultiplicity(Keys(props), x);
    InKeys(props, x);
  }

  /**
   * The members written for a plain object do not depend on the order in which its
   * properties were added: only on the names and their values.
   */
  lemma ObjectOrderFree(h: Heap, p1: seq<Prop<Val>>, p2: seq<Prop<Val>>, seen: set<Ref>)
    requires Closed(h)
    requires forall i :: 0 <= i < |p1| ==> PtrsIn(p1[i].value, h)
    requires forall i :: 0 <= i < |p2| ==> PtrsIn(p2[i].value, h)
    requires DistinctKeys(p1) && DistinctKeys(p2)
    requires forall k :: Get(p1, k) == Get(p2, k)
    ensures CanonProps(h, p1, KeyOrder.Sort(Keys(p1)), seen) == CanonProps(h, p2, KeyOrder.Sort(Keys(p2)), seen)
  {
    SameNames(p1, p2);
    KeyOrder.SortIgnoresOrder(Keys(p1), Keys(p2));
    CanonPropsSameProps(h, p1, p2, KeyOrder.Sort(Keys(p1)), seen);
  }

  // ----- Scalars, holes in arrays and skipped object entries -----

  /** A value that is neither an array nor an object. */
  predicate Scalar(v: Val) {
    !v.Arr? && !v.Ptr?
  }

  /**
   * A scalar has no output exactly when it is `undefined` or a function, and is written
   * as `null` exactly when it is `null`, `NaN` or an infinity; `seen` is untouched.
   */
  lemma ScalarOutput(h: Heap, v: Val, seen: set<Ref>)
    requires Closed(h) && Scalar(v)
    ensures var r := Canon(h, v, seen);
      && r.Ok? && r.value.seen == seen
      && (r.value.json.None? <==> v.Undefined? || v.Func?)
      && (r.value.json == Some(JNull) <==> v.Null? || v.NaN? || v.Infinity?)
  {
  }

  /** An integer is written as its decimal text. */
  lemma NumberText(h: Heap, n: int, seen: set<Ref>)
    requires Closed(h)
    ensures var r := Canon(h, Num(n), seen);
      && r.Ok? && r.value.json.Some?
      && var t := Render(r.value.json.value);
         Decimal.IsIntText(t) && Decimal.IntValue(t) == n
  {
    Decimal.IntToDecimalValue(n);
  }

  /**
   * In an array of scalars every element keeps its place: one with no output (`undefined`,
   * a function) is written as `null`.
   */
  lemma {:induction false} ScalarArrayHoles(h: Heap, items: seq<Val>, seen: set<Ref>)
    requires Closed(h) && forall i {:trigger items[i]} :: 0 <= i < |items| ==> Scalar(items[i])
    ensures forall i :: 0 <= i < |items| ==> PtrsIn(items[i], h)
    ensures var r := CanonItems(h, items, seen);
      && r.Ok? && r.value.seen == seen
      && forall i :: 0 <= i < |items| ==>
           && Canon(h, items[i], seen).Ok?
           && r.value.items[i] == OrNull(Canon(h, items[i], seen).value.json)
           && (r.value.items[i] == JNull <==> items[i].Undefined? || items[i].Func? || items[i].Null? || items[i].NaN? || items[i].Infinity?)
    decreases |items|
  {
    if items != [] {
      var n := |items| - 1;
      ScalarArrayHoles(h, items[..n], seen);
      forall i | 0 <= i < |items| ensures
        var c := Canon(h, items[i], seen);
        c.Ok? && c.value.seen == seen && (OrNull(c.value.json) == JNull <==> items[i].Undefined? || items[i].Func? || items[i].Null? || items[i].NaN? || items[i].Infinity?)
      {
        ScalarOutput(h, items[i], seen);
      }
      assert forall i :: 0 <= i < n ==> items[..n][i] == items[i];
    }
  }

  /**
   * For an object whose values are scalars and distinct `keys`, the members hold exactly
   * the names among `keys` whose value has an output, with that output: entries that are
   * `undefined` or functions are dropped.
   */
  lemma {:induction false} ScalarObjectSkips(h: Heap, props: seq<Prop<Val>>, keys: seq<string>, seen: set<Ref>)
    requires Closed(h) && forall i {:trigger props[i]} :: 0 <= i < |props| ==> Scalar(props[i].value)
    requires forall i, j :: 0 <= i < j < |keys| ==> keys[i] != keys[j]
    ensures forall i :: 0 <= i < |props| ==> PtrsIn(props[i].value, h)
    ensures var r := CanonProps(h, props, keys, seen);
      && r.Ok? && r.value.seen == seen
      && forall k ::
           if k in keys && Get(props, k).Some? then Canon(h, Get(props, k).value, seen) == Ok(Encoded(Get(r.value.members, k), seen))
           else Get(r.value.members, k).None?
    decreases |keys|
  {
    if keys != [] {
      var n := |keys| - 1;
      var key := keys[n];
      var prefix := keys[..n];
      ScalarObjectSkips(h, props, prefix, seen);
      var prev := CanonProps(h, props, prefix, seen).value;
      var i := IndexOf(props, key);
      assert key !in prefix;
      assert forall k :: k in keys <==> k in prefix || k == key;
      if i >= 0 {
        assert props[i] in props;
        ScalarOutput(h, props[i].value, seen);
        var enc := Canon(h, props[i].value, seen).value;
        if enc.json.Some? {
          forall k ensures
            if k in keys && Get(props, k).Some? then Canon(h, Get(props, k).value, seen) == Ok(Encoded(Get(prev.members + [Prop(key, enc.json.value)], k), seen))
            else Get(prev.members + [Prop(key, enc.json.value)], k).None?
          {
            GetSnoc(prev.members, Prop(key, enc.json.value), k);
          }
        }
      }
    }
  }
}
