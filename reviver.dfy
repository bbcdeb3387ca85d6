/**
 * The decoder `parse` of src/worldSaver.js:132-139: `JSON.parse` with a reviver that turns
 * every parsed object whose `__map` property is truthy into `new Map(value.values)`.
 * Decoding starts from the JSON tree; the text parser is not part of this model.
 */
module Reviver {
  import opened Wrappers
  import opened JsValue
  import opened Json

  /** A decoded value. Every object `JSON.parse` builds is a new object. */
  datatype DValue =
    | DUndefined
    | DNull
    | DBool(b: bool)
    | DNum(n: int)
    | DStr(s: string)
    | DArr(items: seq<DValue>)
    | DObj(props: seq<Prop<DValue>>)
    | DMap(entries: seq<Entry>)

  datatype Entry = Entry(key: DValue, value: DValue)

  /** The `TypeError`s `new Map(iterable)` throws. */
  datatype ParseError = NotIterable | NotAnEntry

  predicate IsObject(d: DValue) {
    d.DArr? || d.DObj? || d.DMap?
  }

  predicate DTruthy(d: DValue) {
    match d
    case DUndefined => false
    case DNull => false
    case DBool(b) => b
    case DNum(n) => n != 0
    case DStr(s) => s != ""
    case _ => true
  }

  /**
   * `SameValueZero` on decoded values: primitives compare by value, and two objects are never
   * the same because each one is freshly built.
   */
  predicate SameKey(a: DValue, b: DValue) {
    !IsObject(a) && a == b
  }

  /** The position of the entry whose key is the same as `k`, or -1. */
  function FindKey(entries: seq<Entry>, k: DValue): (i: int)
    ensures -1 <= i < |entries|
    ensures i >= 0 ==> SameKey(entries[i].key, k)
    ensures i < 0 <==> forall j :: 0 <= j < |entries| ==> !SameKey(entries[j].key, k)
  {
    if entries == [] then -1
    else if SameKey(entries[0].key, k) then 0
    else
      var i := FindKey(entries[1..], k);
      assert forall j :: 1 <= j < |entries| ==> entries[j] == entries[1..][j - 1];
      if i < 0 then -1 else i + 1
  }

  /** `map.set(k, v)`: an existing key keeps its place, a new key goes last. */
  function MapSet(entries: seq<Entry>, k: DValue, v: DValue): (r: seq<Entry>)
    ensures FindKey(entries, k) < 0 ==> r == entries + [Entry(k, v)]
    ensures FindKey(entries, k) >= 0 ==>
      && |r| == |entries|
      && r[FindKey(entries, k)] == Entry(entries[FindKey(entries, k)].key, v)
      && forall j :: 0 <= j < |entries| && j != FindKey(entries, k) ==> r[j] == entries[j]
  {
    var i := FindKey(entries, k);
    if i < 0 then entries + [Entry(k, v)] else entries[i := Entry(entries[i].key, v)]
  }

  /** `obj.k`: `undefined` when there is no such property. */
  function Member(props: seq<Prop<DValue>>, k: string): DValue {
    var g := Get(props, k);
    if g.Some? then g.value else DUndefined
  }

  /** `entry[0]` or `entry[1]` (`index` is "0" or "1") of an object yielded as a `Map` entry. */
  function Element(d: DValue, index: nat): DValue
    requires index < 2
  {
    match d
    case DArr(items) => if index < |items| then items[index] else DUndefined
    case DObj(props) => Member(props, if index == 0 then "0" else "1")
    case _ => DUndefined
  }

  /** One `set(entry[0], entry[1])` per value the iterable yields; a primitive is no entry. */
  function AddEntries(entries: seq<Entry>, xs: seq<DValue>): Result<seq<Entry>, ParseError>
    decreases |xs|
  {
    if xs == [] then Ok(entries)
    else if !IsObject(xs[0]) then Err(NotAnEntry)
    else AddEntries(MapSet(entries, Element(xs[0], 0), Element(xs[0], 1)), xs[1..])
  }

  /** What iterating a `Map` yields: one `[key, value]` array per entry. */
  function EntryArrays(entries: seq<Entry>): (r: seq<DValue>)
    ensures |r| == |entries|
    ensures forall i :: 0 <= i < |r| ==> r[i] == DArr([entries[i].key, entries[i].value])
  {
    if entries == [] then []
    else [DArr([entries[0].key, entries[0].value])] + EntryArrays(entries[1..])
  }

  /**
   * `new Map(values)`: `undefined` and `null` give an empty map, arrays, strings and maps
   * are iterated, anything else is not iterable.
   */
  function NewMap(values: DValue): Result<seq<Entry>, ParseError> {
    match values
    case DUndefined => Ok([])
    case DNull => Ok([])
    case DArr(items) => AddEntries([], items)
    case DStr(s) => if s == [] then Ok([]) else Err(NotAnEntry)
    case DMap(entries) => AddEntries([], EntryArrays(entries))
    case _ => Err(NotIterable)
  }

  /** The value of the last member named `k`, if any. */
  function LastValue(members: seq<Prop<Json>>, k: string): Option<Json> {
    if members == [] then None
    else if members[|members| - 1].key == k then Some(members[|members| - 1].value)
    else LastValue(members[..|members| - 1], k)
  }

  /** The properties of a parsed object: a repeated name keeps its first place and its last value. */
  function Collect(members: seq<Prop<Json>>): (r: seq<Prop<Json>>)
    ensures forall p :: p in r ==> p in members
  {
    if members == [] then []
    else
      var prev := Collect(members[..|members| - 1]);
      var last := members[|members| - 1];
      SetFrom(prev, last.key, last.value);
      Set(prev, last.key, last.value)
  }

  /** The names `ks` each occur among `members`, in the order of their first occurrences. */
  predicate FirstOrder(ks: seq<string>, members: seq<Prop<Json>>) {
    && (forall i :: 0 <= i < |ks| ==> IndexOf(members, ks[i]) >= 0)
    && forall i, j :: 0 <= i < j < |ks| ==> IndexOf(members, ks[i]) < IndexOf(members, ks[j])
  }

  /**
   * The parsed object has one property per distinct member name, in the order the names
   * first occur, each holding the value of the last member with that name.
   */
  lemma {:induction false} CollectNames(members: seq<Prop<Json>>)
    ensures var r := Collect(members);
      && DistinctKeys(r)
      && (forall k :: Get(r, k) == LastValue(members, k))
      && FirstOrder(Keys(r), members)
  {
    if members != [] {
      var prefix := members[..|members| - 1];
      var last := members[|members| - 1];
      var prev := Collect(prefix);
      var r := Set(prev, last.key, last.value);
      CollectNames(prefix);
      SplitLast(members);
      SetDistinct(prev, last.key, last.value);
      forall k ensures Get(r, k) == LastValue(members, k) {
        SetGet(prev, last.key, last.value, k);
      }
      SetKeys(prev, last.key, last.value);
      OrderSnoc(prefix, last, Keys(prev));
      if last.key !in Keys(prev) {
        LastValueFound(prefix, last.key);
      }
    }
  }

  lemma SplitLast<V>(members: seq<V>)
    requires members != []
    ensures members == members[..|members| - 1] + [members[|members| - 1]]
  {
  }

  /** A name has a last value exactly when it has a first occurrence. */
  lemma {:induction false} LastValueFound(members: seq<Prop<Json>>, k: string)
    ensures LastValue(members, k).Some? <==> IndexOf(members, k) >= 0
  {
    if members != [] {
      var prefix := members[..|members| - 1];
      var last := members[|members| - 1];
      LastValueFound(prefix, k);
      SplitLast(members);
      IndexOfSnoc(prefix, last, k);
    }
  }

  /** One more member keeps the first occurrences of earlier names, and a new name comes last. */
  lemma OrderSnoc(prefix: seq<Prop<Json>>, last: Prop<Json>, ks: seq<string>)
    requires FirstOrder(ks, prefix)
    ensures FirstOrder(ks, prefix + [last])
    ensures IndexOf(prefix, last.key) < 0 ==> FirstOrder(ks + [last.key], prefix + [last])
  {
    hide IndexOf;
    var members := prefix + [last];
    forall i | 0 <= i < |ks| ensures IndexOf(members, ks[i]) == IndexOf(prefix, ks[i]) < |prefix| {
      IndexOfSnoc(prefix, last, ks[i]);
    }
    IndexOfSnoc(prefix, last, last.key);
    if IndexOf(prefix, last.key) < 0 {
      var ks' := ks + [last.key];
      forall i, j | 0 <= i < j < |ks'| ensures IndexOf(members, ks'[i]) < IndexOf(members, ks'[j]) {
        assert ks'[i] == ks[i];
      }
    }
  }

  /** `IndexOf` after one more member: earlier names keep their place, a new name is last. */
  lemma {:induction false} IndexOfSnoc<V>(props: seq<Prop<V>>, p: Prop<V>, k: string)
    ensures IndexOf(props + [p], k) ==
      if IndexOf(props, k) >= 0 then IndexOf(props, k) else if p.key == k then |props| else -1
  {
    if props != [] && props[0].key != k {
      IndexOfSnoc(props[1..], p, k);
      assert (props + [p])[1..] == props[1..] + [p];
    }
  }

  /** `parse`, from the JSON tree: children are revived first, then the object holding them. */
  function Revive(j: Json): Result<DValue, ParseError>
    decreases j, 1
  {
    match j
    case JNull => Ok(DNull)
    case JBool(b) => Ok(DBool(b))
    case JNum(n) => Ok(DNum(n))
    case JStr(s) => Ok(DStr(s))
    case JArr(items) =>
      (match ReviveItems(items)
       case Err(e) => Err(e)
       case Ok(ds) => Ok(DArr(ds)))
    case JObj(members) =>
      match ReviveProps(j, Collect(members))
      case Err(e) => Err(e)
      case Ok(props) =>
        if DTruthy(Member(props, "__map")) then
          match NewMap(Member(props, "values"))
          case Err(e) => Err(e)
          case Ok(entries) => Ok(DMap(entries))
        else Ok(DObj(props))
  }

  function ReviveItems(items: seq<Json>): (r: Result<seq<DValue>, ParseError>)
    ensures r.Ok? ==> |r.value| == |items|
    decreases items
  {
    if items == [] then Ok([])
    else
      match ReviveItems(items[..|items| - 1])
      case Err(e) => Err(e)
      case Ok(prev) =>
        match Revive(items[|items| - 1])
        case Err(e) => Err(e)
        case Ok(d) => Ok(prev + [d])
  }

  function ReviveProps(ghost parent: Json, props: seq<Prop<Json>>): (r: Result<seq<Prop<DValue>>, ParseError>)
    requires forall p :: p in props ==> p.value < parent
    ensures r.Ok? ==> |r.value| == |props| && forall i :: 0 <= i < |props| ==> r.value[i].key == props[i].key
    decreases parent, 0, |props|
  {
    if props == [] then Ok([])
    else
      var last := props[|props| - 1];
      assert last in props;
      match ReviveProps(parent, props[..|props| - 1])
      case Err(e) => Err(e)
      case Ok(prev) =>
        match Revive(last.value)
        case Err(e) => Err(e)
        case Ok(d) => Ok(prev + [Prop(last.key, d)])
  }

  // ----- Objects without a `__map` property come back as they were parsed -----

  /** No object in `j` has a `__map` property or a repeated property name. */
  predicate Untagged(j: Json) {
    match j
    case JArr(items) => forall i :: 0 <= i < |items| ==> Untagged(items[i])
    case JObj(members) =>
      && DistinctKeys(members)
      && Get(members, "__map").None?
      && forall i :: 0 <= i < |members| ==> Untagged(members[i].value)
    case _ => true
  }

  /** The decoded value that mirrors `j`, object for object. */
  function Embed(j: Json): DValue
    decreases j, 1
  {
    match j
    case JNull => DNull
    case JBool(b) => DBool(b)
    case JNum(n) => DNum(n)
    case JStr(s) => DStr(s)
    case JArr(items) => DArr(EmbedItems(items))
    case JObj(members) => DObj(EmbedProps(j, members))
  }

  function EmbedItems(items: seq<Json>): (r: seq<DValue>)
    ensures |r| == |items|
    decreases items
  {
    if items == [] then [] else EmbedItems(items[..|items| - 1]) + [Embed(items[|items| - 1])]
  }

  function EmbedProps(ghost parent: Json, props: seq<Prop<Json>>): (r: seq<Prop<DValue>>)
    requires forall p :: p in props ==> p.value < parent
    ensures |r| == |props| && forall i :: 0 <= i < |props| ==> r[i].key == props[i].key
    decreases parent, 0, |props|
  {
    if props == [] then []
    else
      var last := props[|props| - 1];
      assert last in props;
      EmbedProps(parent, props[..|props| - 1]) + [Prop(last.key, Embed(last.value))]
  }

  /** Distinct names: nothing is overwritten, so the properties stay as parsed. */
  lemma {:induction false} CollectDistinct(members: seq<Prop<Json>>)
    requires DistinctKeys(members)
    ensures Collect(members) == members
  {
    if members != [] {
      var prefix := members[..|members| - 1];
      CollectDistinct(prefix);
      var last := members[|members| - 1];
      assert members == prefix + [last];
    }
  }

  /** A property missing from the parsed object is missing after revival too. */
  lemma AbsentKey<V, W>(a: seq<Prop<V>>, b: seq<Prop<W>>, k: string)
    requires |a| == |b| && (forall i :: 0 <= i < |a| ==> a[i].key == b[i].key) && Get(a, k).None?
    ensures Get(b, k).None?
  {
  }

  /** Revival only changes objects with a truthy `__map`: without one the tree comes back unchanged. */
  lemma {:induction false} ReviveUntagged(j: Json)
    requires Untagged(j)
    ensures Revive(j) == Ok(Embed(j))
    decreases j, 1
  {
    match j
    case JArr(items) =>
      ReviveItemsUntagged(items);
    case JObj(members) =>
      CollectDistinct(members);
      RevivePropsUntagged(j, members);
      AbsentKey(members, EmbedProps(j, members), "__map");
    case _ =>
  }

  lemma {:induction false} ReviveItemsUntagged(items: seq<Json>)
    requires forall i :: 0 <= i < |items| ==> Untagged(items[i])
    ensures ReviveItems(items) == Ok(EmbedItems(items))
    decreases items
  {
    if items != [] {
      ReviveItemsUntagged(items[..|items| - 1]);
      ReviveUntagged(items[|items| - 1]);
    }
  }

  lemma {:induction false} RevivePropsUntagged(parent: Json, props: seq<Prop<Json>>)
    requires forall p :: p in props ==> p.value < parent
    requires forall i :: 0 <= i < |props| ==> Untagged(props[i].value)
    ensures ReviveProps(parent, props) == Ok(EmbedProps(parent, props))
    decreases parent, 0, |props|
  {
    if props != [] {
      var last := props[|props| - 1];
      assert last in props;
      RevivePropsUntagged(parent, props[..|props| - 1]);
      ReviveUntagged(last.value);
    }
  }

  // ----- `new Map` over `[key, value]` arrays -----

  /** An array revives exactly when each element does, element by element. */
  lemma {:induction false} ReviveItemsEach(items: seq<Json>)
    ensures ReviveItems(items).Ok? <==> forall i :: 0 <= i < |items| ==> Revive(items[i]).Ok?
    ensures ReviveItems(items).Ok? ==>
      forall i :: 0 <= i < |items| ==> ReviveItems(items).value[i] == Revive(items[i]).value
    decreases items
  {
    if items != [] {
      var prefix := items[..|items| - 1];
      ReviveItemsEach(prefix);
      assert forall i :: 0 <= i < |prefix| ==> prefix[i] == items[i];
    }
  }

  /** Keys that are the same as no earlier key and none already in the map. */
  predicate FreshKeys(entries: seq<Entry>, keys: seq<DValue>) {
    && (forall i, j :: 0 <= i < j < |keys| ==> !SameKey(keys[i], keys[j]))
    && (forall e, i :: e in entries && 0 <= i < |keys| ==> !SameKey(e.key, keys[i]))
  }

  /** Entries with fresh keys are appended in the order they are yielded. */
  lemma {:induction false} AddEntriesFresh(entries: seq<Entry>, xs: seq<DValue>, keys: seq<DValue>, values: seq<DValue>)
    requires |keys| == |xs| && |values| == |xs|
    requires forall i :: 0 <= i < |xs| ==> xs[i] == DArr([keys[i], values[i]])
    requires FreshKeys(entries, keys)
    ensures AddEntries(entries, xs).Ok?
    ensures var r := AddEntries(entries, xs).value;
      && |r| == |entries| + |xs|
      && r[..|entries|] == entries
      && forall i :: 0 <= i < |xs| ==> r[|entries| + i] == Entry(keys[i], values[i])
    decreases |xs|
  {
    // The steps below rest on the contracts of these functions, not on their definitions.
    hide MapSet, FindKey;
    if xs != [] {
      var e := Entry(keys[0], values[0]);
      assert FindKey(entries, keys[0]) < 0 by {
        forall j | 0 <= j < |entries| ensures !SameKey(entries[j].key, keys[0]) {
          assert entries[j] in entries;
        }
      }
      var next := entries + [e];
      assert FreshKeys(next, keys[1..]) by {
        forall x, i | x in next && 0 <= i < |keys[1..]| ensures !SameKey(x.key, keys[1..][i]) {
          if x == e {
            assert !SameKey(keys[0], keys[i + 1]);
          } else {
            assert x in entries;
          }
        }
      }
      AddEntriesFresh(next, xs[1..], keys[1..], values[1..]);
      var r := AddEntries(entries, xs).value;
      assert r == AddEntries(next, xs[1..]).value;
      assert r[..|entries|] == r[..|next|][..|entries|];
      forall i | 0 <= i < |xs| ensures r[|entries| + i] == Entry(keys[i], values[i]) {
        if i == 0 {
          assert r[..|next|][|entries|] == e;
        } else {
          assert r[|next| + (i - 1)] == Entry(keys[1..][i - 1], values[1..][i - 1]);
        }
      }
    }
  }
}
