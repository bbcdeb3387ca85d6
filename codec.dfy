/**
 * The canonical encoder `stringifyInner` / `stringify` and the decoder `parse` of
 * src/worldSaver.js:86-139.
 *
 * `Canon` is the specification: the JSON tree whose text `stringifyInner` writes for a value
 * (`None` where it returns `undefined`), together with the `seen` set it leaves behind, or
 * the circular-structure error it throws. `seen` is one mutable set shared by the whole
 * traversal, so it is threaded through the calls from left to right.
 */
module Codec {
  import opened Wrappers
  import opened JsValue
  import opened Json
  import KeyOrder

  /** The `TypeError` 'Converting circular structure to JSON' (src/worldSaver.js:104). */
  datatype CodecError = CircularStructure

  /** What one call leaves: its output (absent for `undefined`) and the shared `seen` set. */
  datatype Encoded = Encoded(json: Option<Json>, seen: set<Ref>)

  datatype Listed = Listed(items: seq<Json>, seen: set<Ref>)

  datatype Membered = Membered(members: seq<Prop<Json>>, seen: set<Ref>)

  /** `out || 'null'`: an element with no output is written as `null`. */
  function OrNull(j: Option<Json>): Json {
    if j.Some? then j.value else JNull
  }

  /** The tagged object a `Map` is rewritten to (src/worldSaver.js:110). */
  function MapWrapper(values: seq<Json>): Json {
    JObj([Prop("__map", JBool(true)), Prop("values", JArr(values))])
  }

  /** A larger `seen` leaves no more unvisited objects. */
  lemma Fewer(h: Heap, seen: set<Ref>, seen': set<Ref>)
    requires seen <= seen'
    ensures |h.Keys - seen'| <= |h.Keys - seen|
  {
    SubsetCard(h.Keys - seen', h.Keys - seen);
  }

  lemma SubsetCard(a: set<Ref>, b: set<Ref>)
    requires a <= b
    ensures |a| <= |b|
  {
    assert b == a + (b - a);
  }

  function Canon(h: Heap, v: Val, seen: set<Ref>): (r: Result<Encoded, CodecError>)
    requires Closed(h) && PtrsIn(v, h)
    ensures r.Ok? ==> seen <= r.value.seen
    decreases |h.Keys - seen|, v, 1
  {
    match v
    case Undefined => Ok(Encoded(None, seen))
    case Func => Ok(Encoded(None, seen))
    case Num(n) => Ok(Encoded(Some(JNum(n)), seen))
    case NaN => Ok(Encoded(Some(JNull), seen))
    case Infinity(_) => Ok(Encoded(Some(JNull), seen))
    case Null => Ok(Encoded(Some(JNull), seen))
    case Bool(b) => Ok(Encoded(Some(JBool(b)), seen))
    case Str(s) => Ok(Encoded(Some(JStr(s)), seen))
    case Arr(items) =>
      (match CanonItems(h, items, seen)
       case Err(e) => Err(e)
       case Ok(l) => Ok(Encoded(Some(JArr(l.items)), l.seen)))
    case Ptr(ref) => CanonRef(h, ref, seen)
  }

  /**
   * An object reached through a reference: a second visit while it is in `seen` throws; a
   * `Map` stays in `seen` afterwards, a plain object is taken out again.
   */
  function CanonRef(h: Heap, ref: Ref, seen: set<Ref>): (r: Result<Encoded, CodecError>)
    requires Closed(h) && ref in h
    ensures r.Ok? ==> seen <= r.value.seen
    decreases |h.Keys - seen|, Ptr(ref), 0
  {
    if ref in seen then Err(CircularStructure)
    else
      assert h.Keys - (seen + {ref}) == (h.Keys - seen) - {ref};
      match h[ref]
      case MapNode(pairs) =>
        (match CanonPairs(h, pairs, seen + {ref})
         case Err(e) => Err(e)
         case Ok(l) => Ok(Encoded(Some(MapWrapper(l.items)), l.seen)))
      case Plain(props) =>
        match CanonProps(h, props, KeyOrder.Sort(Keys(props)), seen + {ref})
        case Err(e) => Err(e)
        case Ok(m) => Ok(Encoded(Some(JObj(m.members)), m.seen - {ref}))
  }

  /** The elements of an array, left to right. */
  function CanonItems(h: Heap, items: seq<Val>, seen: set<Ref>): (r: Result<Listed, CodecError>)
    requires Closed(h) && forall i :: 0 <= i < |items| ==> PtrsIn(items[i], h)
    ensures r.Ok? ==> |r.value.items| == |items| && seen <= r.value.seen
    decreases |h.Keys - seen|, items
  {
    if items == [] then Ok(Listed([], seen))
    else
      var last := items[|items| - 1];
      match CanonItems(h, items[..|items| - 1], seen)
      case Err(e) => Err(e)
      case Ok(prev) =>
        Fewer(h, seen, prev.seen);
        match Canon(h, last, prev.seen)
        case Err(e) => Err(e)
        case Ok(enc) => Ok(Listed(prev.items + [OrNull(enc.json)], enc.seen))
  }

  /** The entries of a `Map`, each written as the two-element array `[key, value]`. */
  function CanonPairs(h: Heap, pairs: seq<Pair>, seen: set<Ref>): (r: Result<Listed, CodecError>)
    requires Closed(h) && forall i :: 0 <= i < |pairs| ==> PairPtrsIn(pairs[i], h)
    ensures r.Ok? ==> |r.value.items| == |pairs| && seen <= r.value.seen
    decreases |h.Keys - seen|, pairs
  {
    if pairs == [] then Ok(Listed([], seen))
    else
      var last := pairs[|pairs| - 1];
      match CanonPairs(h, pairs[..|pairs| - 1], seen)
      case Err(e) => Err(e)
      case Ok(prev) =>
        Fewer(h, seen, prev.seen);
        match CanonPair(h, last, prev.seen)
        case Err(e) => Err(e)
        case Ok(enc) => Ok(Listed(prev.items + [enc.json.value], enc.seen))
  }

  predicate PairPtrsIn(p: Pair, h: Heap) {
    PtrsIn(p.key, h) && PtrsIn(p.value, h)
  }

  /** One `Map` entry as the array `[key, value]`. */
  function CanonPair(h: Heap, p: Pair, seen: set<Ref>): (r: Result<Encoded, CodecError>)
    requires Closed(h) && PairPtrsIn(p, h)
    ensures r.Ok? ==> r.value.json.Some? && r.value.json.value.JArr? && |r.value.json.value.items| == 2
    ensures r.Ok? ==> seen <= r.value.seen
    decreases |h.Keys - seen|, p
  {
    match Canon(h, p.key, seen)
    case Err(e) => Err(e)
    case Ok(k) =>
      Fewer(h, seen, k.seen);
      match Canon(h, p.value, k.seen)
      case Err(e) => Err(e)
      case Ok(w) => Ok(Encoded(Some(JArr([OrNull(k.json), OrNull(w.json)])), w.seen))
  }

  /**
   * The members of a plain object for the sorted `keys`, left to right; a key whose value
   * has no output is skipped.
   */
  function CanonProps(h: Heap, props: seq<Prop<Val>>, keys: seq<string>, seen: set<Ref>)
    : (r: Result<Membered, CodecError>)
    requires Closed(h) && forall i :: 0 <= i < |props| ==> PtrsIn(props[i].value, h)
    ensures r.Ok? ==> |r.value.members| <= |keys| && seen <= r.value.seen
    decreases |h.Keys - seen|, props, |keys|
  {
    if keys == [] then Ok(Membered([], seen))
    else
      var key := keys[|keys| - 1];
      match CanonProps(h, props, keys[..|keys| - 1], seen)
      case Err(e) => Err(e)
      case Ok(prev) =>
        Fewer(h, seen, prev.seen);
        var i := IndexOf(props, key);
        if i < 0 then Ok(Membered(prev.members, prev.seen))
        else
          var p := props[i];
          assert p in props && p.value < p;
          match Canon(h, p.value, prev.seen)
          case Err(e) => Err(e)
          case Ok(enc) =>
            if enc.json.None? then Ok(Membered(prev.members, enc.seen))
            else Ok(Membered(prev.members + [Prop(key, enc.json.value)], enc.seen))
  }

  /** An error in a prefix of the elements is the error of the whole array. */
  lemma {:induction false} CanonItemsErr(h: Heap, items: seq<Val>, i: nat, seen: set<Ref>)
    requires Closed(h) && forall k :: 0 <= k < |items| ==> PtrsIn(items[k], h)
    requires i <= |items| && CanonItems(h, items[..i], seen).Err?
    ensures CanonItems(h, items, seen) == CanonItems(h, items[..i], seen)
    decreases |items| - i
  {
    if i < |items| {
      assert items[..i + 1][..i] == items[..i];
      CanonItemsErr(h, items, i + 1, seen);
    } else {
      assert items[..i] == items;
    }
  }

  /** One more element, encoded from the `seen` its predecessors left. */
  lemma CanonItemsGrows(h: Heap, items: seq<Val>, i: nat, seen: set<Ref>, acc: Listed)
    requires Closed(h) && forall k :: 0 <= k < |items| ==> PtrsIn(items[k], h)
    requires i < |items| && CanonItems(h, items[..i], seen) == Ok(acc)
    ensures var r := CanonItems(h, items[..i + 1], seen);
      match Canon(h, items[i], acc.seen)
      case Err(_) => r.Err?
      case Ok(enc) => r == Ok(Listed(acc.items + [OrNull(enc.json)], enc.seen))
  {
    assert items[..i + 1][..i] == items[..i];
  }

  lemma {:induction false} CanonPairsErr(h: Heap, pairs: seq<Pair>, i: nat, seen: set<Ref>)
    requires Closed(h) && forall k :: 0 <= k < |pairs| ==> PairPtrsIn(pairs[k], h)
    requires i <= |pairs| && CanonPairs(h, pairs[..i], seen).Err?
    ensures CanonPairs(h, pairs, seen) == CanonPairs(h, pairs[..i], seen)
    decreases |pairs| - i
  {
    if i < |pairs| {
      assert pairs[..i + 1][..i] == pairs[..i];
      CanonPairsErr(h, pairs, i + 1, seen);
    } else {
      assert pairs[..i] == pairs;
    }
  }

  lemma CanonPairsGrows(h: Heap, pairs: seq<Pair>, i: nat, seen: set<Ref>, acc: Listed)
    requires Closed(h) && forall k :: 0 <= k < |pairs| ==> PairPtrsIn(pairs[k], h)
    requires i < |pairs| && CanonPairs(h, pairs[..i], seen) == Ok(acc)
    ensures var r := CanonPairs(h, pairs[..i + 1], seen);
      match CanonPair(h, pairs[i], acc.seen)
      case Err(_) => r.Err?
      case Ok(enc) => r == Ok(Listed(acc.items + [enc.json.value], enc.seen))
  {
    assert pairs[..i + 1][..i] == pairs[..i];
  }

  lemma {:induction false} CanonPropsErr(h: Heap, props: seq<Prop<Val>>, keys: seq<string>, i: nat, seen: set<Ref>)
    requires Closed(h) && forall k :: 0 <= k < |props| ==> PtrsIn(props[k].value, h)
    requires i <= |keys| && CanonProps(h, props, keys[..i], seen).Err?
    ensures CanonProps(h, props, keys, seen) == CanonProps(h, props, keys[..i], seen)
    decreases |keys| - i
  {
    if i < |keys| {
      assert keys[..i + 1][..i] == keys[..i];
      CanonPropsErr(h, props, keys, i + 1, seen);
    } else {
      assert keys[..i] == keys;
    }
  }

  /** One more key, present in the object, encoded from the `seen` the earlier keys left. */
  lemma CanonPropsGrows(h: Heap, props: seq<Prop<Val>>, keys: seq<string>, i: nat, seen: set<Ref>, acc: Membered)
    requires Closed(h) && forall k :: 0 <= k < |props| ==> PtrsIn(props[k].value, h)
    requires i < |keys| && CanonProps(h, props, keys[..i], seen) == Ok(acc)
    requires IndexOf(props, keys[i]) >= 0
    ensures var r := CanonProps(h, props, keys[..i + 1], seen);
      match Canon(h, props[IndexOf(props, keys[i])].value, acc.seen)
      case Err(_) => r.Err?
      case Ok(enc) =>
        r == Ok(Membered(if enc.json.None? then acc.members else acc.members + [Prop(keys[i], enc.json.value)], enc.seen))
  {
    assert keys[..i + 1][..i] == keys[..i];
  }

  /** Every sorted key names a property of the object. */
  lemma SortedKeysPresent(props: seq<Prop<Val>>, keys: seq<string>)
    requires keys == KeyOrder.Sort(Keys(props))
    ensures forall j :: 0 <= j < |keys| ==> IndexOf(props, keys[j]) >= 0
  {
    KeyOrder.SortPermutes(Keys(props));
    forall j | 0 <= j < |keys| ensures IndexOf(props, keys[j]) >= 0 {
      assert keys[j] in multiset(Keys(props));
    }
  }

  lemma ItemsTextStep(items: seq<Json>, x: Json, text: string, t: string)
    requires text == "[" + RenderItems(items)
    requires t == Render(x)
    ensures (if items != [] then text + "," else text) + t == "[" + RenderItems(items + [x])
  {
    RenderItemsSnoc(items, x);
  }

  lemma MembersTextStep(members: seq<Prop<Json>>, key: string, x: Json, text: string, t: string)
    requires text == RenderMembers(members)
    requires t == Render(x)
    ensures (if text != "" then text + "," else text) + (Quote(key) + ":" + t)
      == RenderMembers(members + [Prop(key, x)])
  {
    RenderMembersSnoc(members, Prop(key, x));
    RenderMembersEmpty(members);
  }

  lemma MapWrapperText(items: seq<Json>)
    ensures Render(MapWrapper(items))
      == "{" + (Quote("__map") + ":" + "true") + "," + (Quote("values") + ":" + ("[" + RenderItems(items) + "]")) + "}"
  {
    var m1 := Prop("__map", JBool(true));
    var m2 := Prop("values", JArr(items));
    RenderMembersSnoc([m1], m2);
    assert [m1, m2] == [m1] + [m2];
  }

  /** One element of `StringifyArray`'s loop, written from the `seen` its predecessors left. */
  lemma ArrayStep(h: Heap, items: seq<Val>, i: nat, seen: set<Ref>, acc: Listed, t: string) returns (next: Listed)
    requires Closed(h) && forall k :: 0 <= k < |items| ==> PtrsIn(items[k], h)
    requires i < |items| && CanonItems(h, items[..i], seen) == Ok(acc)
    requires Canon(h, items[i], acc.seen).Ok? && t == Render(OrNull(Canon(h, items[i], acc.seen).value.json))
    ensures CanonItems(h, items[..i + 1], seen) == Ok(next)
    ensures next.seen == Canon(h, items[i], acc.seen).value.seen
    ensures (if i > 0 then "[" + RenderItems(acc.items) + "," else "[" + RenderItems(acc.items)) + t
      == "[" + RenderItems(next.items)
  {
    CanonItemsGrows(h, items, i, seen, acc);
    var enc := Canon(h, items[i], acc.seen).value;
    next := Listed(acc.items + [OrNull(enc.json)], enc.seen);
    ItemsTextStep(acc.items, OrNull(enc.json), "[" + RenderItems(acc.items), t);
  }

  /** One entry of `StringifyMap`'s loop. */
  lemma PairsStep(h: Heap, pairs: seq<Pair>, i: nat, seen: set<Ref>, acc: Listed, t: string) returns (next: Listed)
    requires Closed(h) && forall k :: 0 <= k < |pairs| ==> PairPtrsIn(pairs[k], h)
    requires i < |pairs| && CanonPairs(h, pairs[..i], seen) == Ok(acc)
    requires CanonPair(h, pairs[i], acc.seen).Ok? && t == Render(CanonPair(h, pairs[i], acc.seen).value.json.value)
    ensures CanonPairs(h, pairs[..i + 1], seen) == Ok(next)
    ensures next.seen == CanonPair(h, pairs[i], acc.seen).value.seen
    ensures (if i > 0 then "[" + RenderItems(acc.items) + "," else "[" + RenderItems(acc.items)) + t
      == "[" + RenderItems(next.items)
  {
    CanonPairsGrows(h, pairs, i, seen, acc);
    var enc := CanonPair(h, pairs[i], acc.seen).value;
    next := Listed(acc.items + [enc.json.value], enc.seen);
    ItemsTextStep(acc.items, enc.json.value, "[" + RenderItems(acc.items), t);
  }

  /** The text of an element is what `|| 'null'` makes of the text of its value. */
  lemma TextOrNull(enc: Encoded)
    ensures (if TextOf(enc).Some? then TextOf(enc).value else "null") == Render(OrNull(enc.json))
  {
  }

  /** `[key, value]` written from the texts of its two halves. */
  lemma PairText(h: Heap, p: Pair, seen: set<Ref>, kt: string, vt: string)
    requires Closed(h) && PairPtrsIn(p, h) && Canon(h, p.key, seen).Ok?
    requires Canon(h, p.value, Canon(h, p.key, seen).value.seen).Ok?
    requires kt == Render(OrNull(Canon(h, p.key, seen).value.json))
    requires vt == Render(OrNull(Canon(h, p.value, Canon(h, p.key, seen).value.seen).value.json))
    ensures CanonPair(h, p, seen).Ok?
    ensures CanonPair(h, p, seen).value.seen == Canon(h, p.value, Canon(h, p.key, seen).value.seen).value.seen
    ensures "[" + (kt + "," + vt) + "]" == Render(CanonPair(h, p, seen).value.json.value)
  {
    var items := CanonPair(h, p, seen).value.json.value.items;
    assert kt == Render(items[0]) && vt == Render(items[1]);
    assert RenderItems(items) == RenderItems(items[..1]) + "," + Render(items[1]);
  }

  /** One key of `StringifyObject`'s loop: its member is written unless its value has no output. */
  lemma PropsStep(h: Heap, props: seq<Prop<Val>>, keys: seq<string>, i: nat, seen: set<Ref>, acc: Membered,
                  text: string, t: Option<string>) returns (next: Membered, text': string)
    requires Closed(h) && forall k :: 0 <= k < |props| ==> PtrsIn(props[k].value, h)
    requires i < |keys| && CanonProps(h, props, keys[..i], seen) == Ok(acc) && text == RenderMembers(acc.members)
    requires IndexOf(props, keys[i]) >= 0
    requires Canon(h, props[IndexOf(props, keys[i])].value, acc.seen).Ok?
    requires t == TextOf(Canon(h, props[IndexOf(props, keys[i])].value, acc.seen).value)
    ensures CanonProps(h, props, keys[..i + 1], seen) == Ok(next)
    ensures next.seen == Canon(h, props[IndexOf(props, keys[i])].value, acc.seen).value.seen
    ensures text' == RenderMembers(next.members)
    ensures text' == if t.None? then text else (if text != "" then text + "," else text) + (Quote(keys[i]) + ":" + t.value)
  {
    CanonPropsGrows(h, props, keys, i, seen, acc);
    var enc := Canon(h, props[IndexOf(props, keys[i])].value, acc.seen).value;
    if t.Some? {
      MembersTextStep(acc.members, keys[i], enc.json.value, text, t.value);
      next := Membered(acc.members + [Prop(keys[i], enc.json.value)], enc.seen);
      text' := (if text != "" then text + "," else text) + (Quote(keys[i]) + ":" + t.value);
    } else {
      next := Membered(acc.members, enc.seen);
      text' := text;
    }
  }

  /** The shared `seen` set of one `stringify` call. */
  class SeenSet {
    var elems: set<Ref>

    constructor ()
      ensures elems == {}
    {
      elems := {};
    }
  }

  /** The text written for an encoding; `None` stands for the `undefined` that is returned. */
  function TextOf(enc: Encoded): Option<string> {
    if enc.json.Some? then Some(Render(enc.json.value)) else None
  }

  /** `stringifyInner(node, seen)` (src/worldSaver.js:86-125). */
  method StringifyInner(h: Heap, node: Val, seen: SeenSet) returns (out: Result<Option<string>, CodecError>)
    requires Closed(h) && PtrsIn(node, h)
    modifies seen
    ensures var r := Canon(h, node, old(seen.elems));
      && (out.Ok? <==> r.Ok?)
      && (out.Ok? ==> out.value == TextOf(r.value) && seen.elems == r.value.seen)
    decreases |h.Keys - seen.elems|, node, 1
  {
    match node {
      case Undefined =>
        out := Ok(None);
      case Num(n) =>
        out := Ok(Some(Decimal.IntToDecimal(n)));
      case NaN =>
        out := Ok(Some("null"));
      case Infinity(_) =>
        out := Ok(Some("null"));
      case Str(s) =>
        out := Ok(Some(Quote(s)));
      case Bool(b) =>
        out := Ok(Some(if b then "true" else "false"));
      case Func =>
        out := Ok(None);
      case Null =>
        out := Ok(Some("null"));
      case Arr(items) =>
        out := StringifyArray(h, items, seen);
      case Ptr(ref) =>
        out := StringifyRef(h, ref, seen);
    }
  }

  /** The array branch of `stringifyInner` (src/worldSaver.js:92-99). */
  method StringifyArray(h: Heap, items: seq<Val>, seen: SeenSet) returns (out: Result<Option<string>, CodecError>)
    requires Closed(h) && forall i :: 0 <= i < |items| ==> PtrsIn(items[i], h)
    modifies seen
    ensures var r := CanonItems(h, items, old(seen.elems));
      && (out.Ok? <==> r.Ok?)
      && (out.Ok? ==> out.value == Some("[" + RenderItems(r.value.items) + "]") && seen.elems == r.value.seen)
    decreases |h.Keys - seen.elems|, items
  {
    ghost var seen0 := seen.elems;
    ghost var acc := Listed([], seen0);
    var text := "[";
    var i := 0;
    while i < |items|
      invariant 0 <= i <= |items|
      invariant CanonItems(h, items[..i], seen0) == Ok(acc)
      invariant seen.elems == acc.seen
      invariant text == "[" + RenderItems(acc.items)
    {
      Fewer(h, seen0, seen.elems);
      var next;
      next, acc := ArrayItem(h, items, i, seen, seen0, acc, text);
      if next.Err? {
        CanonItemsErr(h, items, i + 1, seen0);
        return Err(next.error);
      }
      text := next.value;
      i := i + 1;
    }
    WholeItems(h, items, seen0);
    out := Ok(Some(text + "]"));
  }

  /** The loop of `StringifyArray` ends with every element written. */
  lemma WholeItems(h: Heap, items: seq<Val>, seen: set<Ref>)
    requires Closed(h) && forall i :: 0 <= i < |items| ==> PtrsIn(items[i], h)
    ensures CanonItems(h, items[..|items|], seen) == CanonItems(h, items, seen)
  {
    assert items[..|items|] == items;
  }

  /** One pass of the loop of `StringifyArray`: the separator, then element `i`. */
  method ArrayItem(h: Heap, items: seq<Val>, i: nat, seen: SeenSet, ghost seen0: set<Ref>, ghost acc: Listed, text: string)
    returns (out: Result<string, CodecError>, ghost next: Listed)
    requires Closed(h) && forall k :: 0 <= k < |items| ==> PtrsIn(items[k], h)
    requires i < |items| && CanonItems(h, items[..i], seen0) == Ok(acc)
    requires seen.elems == acc.seen && text == "[" + RenderItems(acc.items)
    modifies seen
    ensures var r := CanonItems(h, items[..i + 1], seen0);
      && (out.Ok? <==> r.Ok?)
      && (out.Ok? ==> r.value == next && seen.elems == next.seen && out.value == "[" + RenderItems(next.items))
    decreases |h.Keys - seen.elems|, items, 0
  {
    var sep := if i > 0 then text + "," else text;
    var e := StringifyElement(h, items[i], seen);
    if e.Err? {
      CanonItemsGrows(h, items, i, seen0, acc);
      return Err(e.error), acc;
    }
    next := ArrayStep(h, items, i, seen0, acc, e.value);
    out := Ok(sep + e.value);
  }

  /** `stringifyInner(node[i], seen) || 'null'` (src/worldSaver.js:96). */
  method StringifyElement(h: Heap, v: Val, seen: SeenSet) returns (out: Result<string, CodecError>)
    requires Closed(h) && PtrsIn(v, h)
    modifies seen
    ensures var r := Canon(h, v, old(seen.elems));
      && (out.Ok? <==> r.Ok?)
      && (out.Ok? ==> out.value == Render(OrNull(r.value.json)) && seen.elems == r.value.seen)
    decreases |h.Keys - seen.elems|, v, 2
  {
    var e := StringifyInner(h, v, seen);
    if e.Err? {
      return Err(e.error);
    }
    out := Ok(if e.value.Some? then e.value.value else "null");
  }

  /**
   * An object reached by reference (src/worldSaver.js:101-124): the cycle check, then a
   * `Map` as its replacement object, or a plain object by its sorted keys.
   */
  method StringifyRef(h: Heap, ref: Ref, seen: SeenSet) returns (out: Result<Option<string>, CodecError>)
    requires Closed(h) && ref in h
    modifies seen
    ensures var r := CanonRef(h, ref, old(seen.elems));
      && (out.Ok? <==> r.Ok?)
      && (out.Ok? ==> out.value == TextOf(r.value) && seen.elems == r.value.seen)
    decreases |h.Keys - seen.elems|, Ptr(ref), 0
  {
    // The steps below rest on the contracts they call, not on these definitions.
    hide MapWrapper, CanonPairs, CanonProps, KeyOrder.Sort;
    if ref in seen.elems {
      return Err(CircularStructure);
    }
    ghost var seen0 := seen.elems;
    assert h.Keys - (seen0 + {ref}) == (h.Keys - seen0) - {ref};
    seen.elems := seen.elems + {ref};
    match h[ref] {
      case MapNode(pairs) =>
        out := StringifyMap(h, pairs, seen);
      case Plain(props) =>
        out := StringifyObject(h, props, seen);
        if out.Ok? {
          seen.elems := seen.elems - {ref};
        }
    }
  }

  /**
   * A `Map`, written as the object `{__map: true, values: [...node]}` that replaces it
   * (src/worldSaver.js:109-112): its keys in sorted order, then each entry as `[key,value]`.
   */
  method StringifyMap(h: Heap, pairs: seq<Pair>, seen: SeenSet) returns (out: Result<Option<string>, CodecError>)
    requires Closed(h) && forall i :: 0 <= i < |pairs| ==> PairPtrsIn(pairs[i], h)
    modifies seen
    ensures var r := CanonPairs(h, pairs, old(seen.elems));
      && (out.Ok? <==> r.Ok?)
      && (out.Ok? ==> out.value == Some(Render(MapWrapper(r.value.items))) && seen.elems == r.value.seen)
    decreases |h.Keys - seen.elems|, pairs
  {
    ghost var seen0 := seen.elems;
    ghost var acc := Listed([], seen0);
    var text := "[";
    var i := 0;
    while i < |pairs|
      invariant 0 <= i <= |pairs|
      invariant CanonPairs(h, pairs[..i], seen0) == Ok(acc)
      invariant seen.elems == acc.seen
      invariant text == "[" + RenderItems(acc.items)
    {
      Fewer(h, seen0, seen.elems);
      var next;
      next, acc := MapItem(h, pairs, i, seen, seen0, acc, text);
      if next.Err? {
        CanonPairsErr(h, pairs, i + 1, seen0);
        return Err(next.error);
      }
      text := next.value;
      i := i + 1;
    }
    WholePairs(h, pairs, seen0);
    MapWrapperText(acc.items);
    out := Ok(Some("{" + (Quote("__map") + ":" + "true") + "," + (Quote("values") + ":" + (text + "]")) + "}"));
  }

  /** The loop of `StringifyMap` ends with every entry written. */
  lemma WholePairs(h: Heap, pairs: seq<Pair>, seen: set<Ref>)
    requires Closed(h) && forall i :: 0 <= i < |pairs| ==> PairPtrsIn(pairs[i], h)
    ensures CanonPairs(h, pairs[..|pairs|], seen) == CanonPairs(h, pairs, seen)
  {
    assert pairs[..|pairs|] == pairs;
  }

  /** One pass of the loop of `StringifyMap`: the separator, then entry `i`. */
  method MapItem(h: Heap, pairs: seq<Pair>, i: nat, seen: SeenSet, ghost seen0: set<Ref>, ghost acc: Listed, text: string)
    returns (out: Result<string, CodecError>, ghost next: Listed)
    requires Closed(h) && forall k :: 0 <= k < |pairs| ==> PairPtrsIn(pairs[k], h)
    requires i < |pairs| && CanonPairs(h, pairs[..i], seen0) == Ok(acc)
    requires seen.elems == acc.seen && text == "[" + RenderItems(acc.items)
    modifies seen
    ensures var r := CanonPairs(h, pairs[..i + 1], seen0);
      && (out.Ok? <==> r.Ok?)
      && (out.Ok? ==> r.value == next && seen.elems == next.seen && out.value == "[" + RenderItems(next.items))
    decreases |h.Keys - seen.elems|, pairs, 0
  {
    var sep := if i > 0 then text + "," else text;
    var e := StringifyPair(h, pairs[i], seen);
    if e.Err? {
      CanonPairsGrows(h, pairs, i, seen0, acc);
      return Err(e.error), acc;
    }
    next := PairsStep(h, pairs, i, seen0, acc, e.value);
    out := Ok(sep + e.value);
  }

  /** One entry `[key, value]` of the array `[...node]`. */
  method StringifyPair(h: Heap, p: Pair, seen: SeenSet) returns (out: Result<string, CodecError>)
    requires Closed(h) && PairPtrsIn(p, h)
    modifies seen
    ensures CanonPair(h, p, old(seen.elems)).Ok? <==> out.Ok?
    ensures out.Ok? ==> out.value == Render(CanonPair(h, p, old(seen.elems)).value.json.value)
    ensures out.Ok? ==> seen.elems == CanonPair(h, p, old(seen.elems)).value.seen
    decreases |h.Keys - seen.elems|, p
  {
    ghost var seen0 := seen.elems;
    var k := StringifyInner(h, p.key, seen);
    if k.Err? {
      return Err(k.error);
    }
    Fewer(h, seen0, seen.elems);
    var v := StringifyInner(h, p.value, seen);
    if v.Err? {
      return Err(v.error);
    }
    var kt := if k.value.Some? then k.value.value else "null";
    var vt := if v.value.Some? then v.value.value else "null";
    TextOrNull(Canon(h, p.key, seen0).value);
    TextOrNull(Canon(h, p.value, Canon(h, p.key, seen0).value.seen).value);
    PairText(h, p, seen0, kt, vt);
    out := Ok("[" + (kt + "," + vt) + "]");
  }

  /** The plain-object branch of `stringifyInner` (src/worldSaver.js:114-124). */
  method StringifyObject(h: Heap, props: seq<Prop<Val>>, seen: SeenSet) returns (out: Result<Option<string>, CodecError>)
    requires Closed(h) && forall i :: 0 <= i < |props| ==> PtrsIn(props[i].value, h)
    modifies seen
    ensures var r := CanonProps(h, props, KeyOrder.Sort(Keys(props)), old(seen.elems));
      && (out.Ok? <==> r.Ok?)
      && (out.Ok? ==> out.value == Some("{" + RenderMembers(r.value.members) + "}") && seen.elems == r.value.seen)
    decreases |h.Keys - seen.elems|, props
  {
    var keys := KeyOrder.Sort(Keys(props));
    SortedKeysPresent(props, keys);
    var text := StringifyMembers(h, props, keys, seen);
    if text.Err? {
      return Err(text.error);
    }
    out := Ok(Some("{" + text.value + "}"));
  }

  /** The loop of `StringifyObject`: the members for `keys`, in that order, comma-separated. */
  method StringifyMembers(h: Heap, props: seq<Prop<Val>>, keys: seq<string>, seen: SeenSet)
    returns (out: Result<string, CodecError>)
    requires Closed(h) && forall i :: 0 <= i < |props| ==> PtrsIn(props[i].value, h)
    requires forall j :: 0 <= j < |keys| ==> IndexOf(props, keys[j]) >= 0
    modifies seen
    ensures var r := CanonProps(h, props, keys, old(seen.elems));
      && (out.Ok? <==> r.Ok?)
      && (out.Ok? ==> out.value == RenderMembers(r.value.members) && seen.elems == r.value.seen)
    decreases |h.Keys - seen.elems|, props, 1
  {
    ghost var seen0 := seen.elems;
    ghost var acc := Membered([], seen0);
    var text := "";
    var i := 0;
    while i < |keys|
      invariant 0 <= i <= |keys|
      invariant CanonProps(h, props, keys[..i], seen0) == Ok(acc)
      invariant seen.elems == acc.seen
      invariant text == RenderMembers(acc.members)
    {
      Fewer(h, seen0, seen.elems);
      var next;
      next, acc := ObjectItem(h, props, keys, i, seen, seen0, acc, text);
      if next.Err? {
        CanonPropsErr(h, props, keys, i + 1, seen0);
        return Err(next.error);
      }
      text := next.value;
      i := i + 1;
    }
    WholeKeys(h, props, keys, seen0);
    out := Ok(text);
  }

  /** The loop of `StringifyMembers` ends with every key written. */
  lemma WholeKeys(h: Heap, props: seq<Prop<Val>>, keys: seq<string>, seen: set<Ref>)
    requires Closed(h) && forall i :: 0 <= i < |props| ==> PtrsIn(props[i].value, h)
    ensures CanonProps(h, props, keys[..|keys|], seen) == CanonProps(h, props, keys, seen)
  {
    assert keys[..|keys|] == keys;
  }

  /** One pass of the loop of `StringifyMembers`: the member for key `i`, if its value has output. */
  method ObjectItem(h: Heap, props: seq<Prop<Val>>, keys: seq<string>, i: nat, seen: SeenSet, ghost seen0: set<Ref>,
                    ghost acc: Membered, text: string)
    returns (out: Result<string, CodecError>, ghost next: Membered)
    requires Closed(h) && forall k :: 0 <= k < |props| ==> PtrsIn(props[k].value, h)
    requires i < |keys| && CanonProps(h, props, keys[..i], seen0) == Ok(acc)
    requires IndexOf(props, keys[i]) >= 0
    requires seen.elems == acc.seen && text == RenderMembers(acc.members)
    modifies seen
    ensures var r := CanonProps(h, props, keys[..i + 1], seen0);
      && (out.Ok? <==> r.Ok?)
      && (out.Ok? ==> r.value == next && seen.elems == next.seen && out.value == RenderMembers(next.members))
    decreases |h.Keys - seen.elems|, props, 0
  {
    var key := keys[i];
    var at := IndexOf(props, key);
    assert props[at] in props;
    var value := StringifyInner(h, props[at].value, seen);
    if value.Err? {
      CanonPropsGrows(h, props, keys, i, seen0, acc);
      return Err(value.error), acc;
    }
    ghost var text';
    next, text' := PropsStep(h, props, keys, i, seen0, acc, text, value.value);
    var t := text;
    if value.value.Some? {
      if t != "" {
        t := t + ",";
      }
      t := t + (Quote(key) + ":" + value.value.value);
    }
    out := Ok(t);
  }

  /** `stringify(obj)` (src/worldSaver.js:127-130): a fresh `seen` set for each call. */
  method Stringify(h: Heap, v: Val) returns (out: Result<Option<string>, CodecError>)
    requires Closed(h) && PtrsIn(v, h)
    ensures var r := Canon(h, v, {});
      && (out.Ok? <==> r.Ok?)
      && (out.Ok? ==> out.value == TextOf(r.value))
  {
    var seen := new SeenSet();
    out := StringifyInner(h, v, seen);
  }
}
