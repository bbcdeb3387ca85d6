/**
 * The `WorldSaver` of src/worldSaver.js:8-84: an id counter, the map from each saved actor
 * to the record made for it, and the records themselves. `save` keeps the savable cards,
 * sorts them parents first and builds one record `{id, data}` per card.
 */
module Saver {
  import opened Wrappers
  import opened JsValue
  import opened Decimal
  import opened Cards
  import opened TopoSort
  import Codec
  import CodecFacts

  // ----- `collectCardData` -----

  /** `card[`_${prop}`]` for a property other than `parent`: `_noSave` has a field of its own. */
  function FieldOf(card: Card, prop: string): Val {
    if prop == "noSave" then card.noSave
    else
      var g := Get(card.fields, prop);
      if g.Some? then g.value else Undefined
  }

  /**
   * One round of the `forEach` over the intrinsic properties (src/worldSaver.js:65-76):
   * `className` is (re)written whenever the constructor is not the default one, then the
   * property is copied when truthy, `parent` being replaced by `own`, `this.map.get(card)`.
   */
  function IntrinsicStep(result: seq<Prop<Val>>, card: Card, prop: string, defaultClass: string, own: Val)
    : seq<Prop<Val>>
  {
    var r := if card.ctor != defaultClass then Set(result, "className", Str(card.ctor)) else result;
    if prop == "parent" then
      if card.parent.Some? then Set(r, "parent", own) else r
    else if Truthy(FieldOf(card, prop)) then Set(r, prop, FieldOf(card, prop))
    else r
  }

  function Intrinsics(card: Card, props: seq<string>, defaultClass: string, own: Val): seq<Prop<Val>> {
    if props == [] then []
    else IntrinsicStep(Intrinsics(card, props[..|props| - 1], defaultClass, own), card, props[|props| - 1], defaultClass, own)
  }

  /** The `for..in` over `_shapeOptions`: each key is assigned in turn. */
  function CopyAll(result: seq<Prop<Val>>, opts: seq<Prop<Val>>): seq<Prop<Val>> {
    if opts == [] then result
    else
      var last := opts[|opts| - 1];
      Set(CopyAll(result, opts[..|opts| - 1]), last.key, last.value)
  }

  /** The object `collectCardData(card)` returns, given `own == this.map.get(card)`. */
  function CardData(card: Card, intrinsic: seq<string>, defaultClass: string, own: Val): seq<Prop<Val>> {
    var r := Intrinsics(card, intrinsic, defaultClass, own);
    if card.shapeOptions.Some? then CopyAll(r, card.shapeOptions.value) else r
  }

  /** What the intrinsic property `prop` contributes: `own` for `parent`, else a truthy field. */
  function Copied(card: Card, prop: string, own: Val): Option<Val> {
    if prop == "parent" then (if card.parent.Some? then Some(own) else None)
    else if Truthy(FieldOf(card, prop)) then Some(FieldOf(card, prop))
    else None
  }

  /**
   * After the intrinsic properties: `className` is the constructor's name exactly when the
   * list is non-empty and the constructor is not the default class; a listed property holds
   * what it contributes; nothing else is present.
   */
  lemma {:induction false} IntrinsicsGet(card: Card, props: seq<string>, defaultClass: string, own: Val, k: string)
    requires "className" !in props
    ensures Get(Intrinsics(card, props, defaultClass, own), k) ==
      if k == "className" then (if props != [] && card.ctor != defaultClass then Some(Str(card.ctor)) else None)
      else if k in props then Copied(card, k, own)
      else None
  {
    if props != [] {
      var prefix := props[..|props| - 1];
      var prop := props[|props| - 1];
      assert (k in props) == (k in prefix || k == prop) by {
        assert props == prefix + [prop];
      }
      IntrinsicsGet(card, prefix, defaultClass, own, k);
      var prev := Intrinsics(card, prefix, defaultClass, own);
      var r := if card.ctor != defaultClass then Set(prev, "className", Str(card.ctor)) else prev;
      assert Get(r, k) == if k == "className" && card.ctor != defaultClass then Some(Str(card.ctor)) else Get(prev, k) by {
        SetGet(prev, "className", Str(card.ctor), k);
      }
      if prop == "parent" {
        if card.parent.Some? {
          SetGet(r, "parent", own, k);
        }
      } else if Truthy(FieldOf(card, prop)) {
        SetGet(r, prop, FieldOf(card, prop), k);
      }
    }
  }

  /** With distinct option names, a name of `_shapeOptions` ends with its value; any other keeps its value. */
  lemma {:induction false} CopyAllGet(result: seq<Prop<Val>>, opts: seq<Prop<Val>>, k: string)
    requires DistinctKeys(opts)
    ensures Get(CopyAll(result, opts), k) == if Get(opts, k).Some? then Get(opts, k) else Get(result, k)
  {
    if opts != [] {
      var prefix := opts[..|opts| - 1];
      var last := opts[|opts| - 1];
      assert opts == prefix + [last];
      GetSnoc(prefix, last, k);
      CopyAllGet(result, prefix, k);
      SetGet(CopyAll(result, prefix), last.key, last.value, k);
    }
  }

  /**
   * `collectCardData` as a whole: a `_shapeOptions` entry wins, otherwise `className` and the
   * intrinsic properties as `IntrinsicsGet` states, and no other property.
   */
  lemma CardDataGet(card: Card, intrinsic: seq<string>, defaultClass: string, own: Val, k: string)
    requires "className" !in intrinsic
    requires card.shapeOptions.Some? ==> DistinctKeys(card.shapeOptions.value)
    ensures Get(CardData(card, intrinsic, defaultClass, own), k) ==
      if card.shapeOptions.Some? && Get(card.shapeOptions.value, k).Some? then Get(card.shapeOptions.value, k)
      else if k == "className" then (if intrinsic != [] && card.ctor != defaultClass then Some(Str(card.ctor)) else None)
      else if k in intrinsic then Copied(card, k, own)
      else None
  {
    IntrinsicsGet(card, intrinsic, defaultClass, own, k);
    if card.shapeOptions.Some? {
      CopyAllGet(Intrinsics(card, intrinsic, defaultClass, own), card.shapeOptions.value, k);
    }
  }

  /** The object built has one property per name. */
  lemma {:induction false} CardDataDistinct(card: Card, intrinsic: seq<string>, defaultClass: string, own: Val)
    ensures DistinctKeys(Intrinsics(card, intrinsic, defaultClass, own))
    ensures DistinctKeys(CardData(card, intrinsic, defaultClass, own))
  {
    if intrinsic != [] {
      var prefix := intrinsic[..|intrinsic| - 1];
      var prop := intrinsic[|intrinsic| - 1];
      CardDataDistinct(card, prefix, defaultClass, own);
      var prev := Intrinsics(card, prefix, defaultClass, own);
      SetDistinct(prev, "className", Str(card.ctor));
      var r := if card.ctor != defaultClass then Set(prev, "className", Str(card.ctor)) else prev;
      SetDistinct(r, "parent", own);
      SetDistinct(r, prop, FieldOf(card, prop));
    }
    if card.shapeOptions.Some? {
      CopyAllDistinct(Intrinsics(card, intrinsic, defaultClass, own), card.shapeOptions.value);
    }
  }

  lemma {:induction false} CopyAllDistinct(result: seq<Prop<Val>>, opts: seq<Prop<Val>>)
    requires DistinctKeys(result)
    ensures DistinctKeys(CopyAll(result, opts))
  {
    if opts != [] {
      var last := opts[|opts| - 1];
      CopyAllDistinct(result, opts[..|opts| - 1]);
      SetDistinct(CopyAll(result, opts[..|opts| - 1]), last.key, last.value);
    }
  }

  // ----- The records `collectData` builds -----

  /** The record `{id, data}` made with counter value `k`. */
  function RecordNode(k: nat): Node {
    Plain([Prop("id", Str(IdText(k))), Prop("data", Ptr(DataObj(k)))])
  }

  /** What `collectData` makes for one card: its record `{id, data}` and the properties of its data object. */
  datatype Made = Made(record: Node, data: seq<Prop<Val>>)

  /** The objects made for `card` when the counter reaches `k`: `this.map` sends the card to record `k`. */
  function MadeFor(card: Card, intrinsic: seq<string>, defaultClass: string, k: nat): Made {
    Made(RecordNode(k), CardData(card, intrinsic, defaultClass, Ptr(RecordObj(k))))
  }

  /** The objects made for each card, the record of the `i`-th having counter value `base + i + 1`. */
  function SaveObjects(cards: seq<Card>, intrinsic: seq<string>, defaultClass: string, base: nat): (r: seq<Made>)
    ensures |r| == |cards|
  {
    if cards == [] then []
    else
      var n := |cards|;
      SaveObjects(cards[..n - 1], intrinsic, defaultClass, base) + [MadeFor(cards[n - 1], intrinsic, defaultClass, base + n)]
  }

  lemma {:induction false} SaveObjectsAt(cards: seq<Card>, intrinsic: seq<string>, defaultClass: string, base: nat, i: nat, k: nat)
    requires i < |cards| && k == base + i + 1
    ensures SaveObjects(cards, intrinsic, defaultClass, base)[i] == MadeFor(cards[i], intrinsic, defaultClass, k)
    decreases |cards|
  {
    // `MadeFor` is compared below, never unfolded.
    hide MadeFor;
    var n := |cards|;
    var prefix := cards[..n - 1];
    var before := SaveObjects(prefix, intrinsic, defaultClass, base);
    assert SaveObjects(cards, intrinsic, defaultClass, base) == before + [MadeFor(cards[n - 1], intrinsic, defaultClass, base + n)];
    if i < n - 1 {
      assert prefix[i] == cards[i];
      SaveObjectsAt(prefix, intrinsic, defaultClass, base, i, k);
    }
  }

  /** `objects` with the objects of `made` added, by counter values `base + 1`, ... */
  function AddRecords(objects: Heap, made: seq<Made>, base: nat): Heap
    decreases |made|
  {
    if made == [] then objects
    else
      var n := |made|;
      var k := base + n;
      AddRecords(objects, made[..n - 1], base)[RecordObj(k) := made[n - 1].record][DataObj(k) := Plain(made[n - 1].data)]
  }

  /** `this.map` with each card's id sent to its record. */
  function MapRecords(recordOf: map<string, Ref>, cards: seq<Card>, base: nat): map<string, Ref> {
    if cards == [] then recordOf
    else MapRecords(recordOf, cards[..|cards| - 1], base)[cards[|cards| - 1].id := RecordObj(base + |cards|)]
  }

  /** The records returned, in order. */
  function RecordRefs(base: nat, n: nat): (r: seq<Ref>)
    ensures |r| == n && forall i :: 0 <= i < n ==> r[i] == RecordObj(base + i + 1)
  {
    seq(n, i requires 0 <= i < n => RecordObj(base + i + 1))
  }

  /** `h` holds the objects `m` under counter value `k`. */
  predicate HoldsRecord(h: Heap, k: nat, m: Made) {
    && RecordObj(k) in h && h[RecordObj(k)] == m.record
    && DataObj(k) in h && h[DataObj(k)] == Plain(m.data)
  }

  /** `h` holds each of `made`. */
  predicate HoldsSave(h: Heap, made: seq<Made>, base: nat) {
    forall i :: 0 <= i < |made| ==> HoldsRecord(h, base + i + 1, made[i])
  }

  /** Only objects of the new counter values are added, and older objects stay as they were. */
  lemma {:induction false} AddRecordsFresh(objects: Heap, made: seq<Made>, base: nat)
    ensures forall r :: r in AddRecords(objects, made, base) ==>
      r in objects || (!r.WorldObj? && base < r.n <= base + |made|)
    ensures forall r :: r in objects && r.n <= base ==>
      r in AddRecords(objects, made, base) && AddRecords(objects, made, base)[r] == objects[r]
    decreases |made|
  {
    if made != [] {
      AddRecordsFresh(objects, made[..|made| - 1], base);
    }
  }

  /** Adding the objects of another counter value keeps those of `j`. */
  lemma HoldsRecordKept(h: Heap, j: nat, m: Made, k: nat, record: Node, dataNode: Node)
    requires HoldsRecord(h, j, m) && j != k
    ensures HoldsRecord(h[RecordObj(k) := record][DataObj(k) := dataNode], j, m)
  {
  }

  /** The `i`-th objects made are held under counter value `base + i + 1`. */
  lemma {:induction false} AddRecordsHold(objects: Heap, made: seq<Made>, base: nat)
    ensures HoldsSave(AddRecords(objects, made, base), made, base)
  {
    forall i | 0 <= i < |made|
      ensures HoldsRecord(AddRecords(objects, made, base), base + i + 1, made[i])
    {
      AddRecordsAt(objects, made, base, i);
    }
  }

  lemma {:induction false} AddRecordsAt(objects: Heap, made: seq<Made>, base: nat, i: nat)
    requires i < |made|
    ensures HoldsRecord(AddRecords(objects, made, base), base + i + 1, made[i])
    decreases |made|
  {
    var n := |made|;
    if i < n - 1 {
      var prefix := made[..n - 1];
      assert prefix[i] == made[i];
      AddRecordsAt(objects, prefix, base, i);
      HoldsRecordKept(AddRecords(objects, prefix, base), base + i + 1, made[i],
        base + n, made[n - 1].record, Plain(made[n - 1].data));
    }
  }

  /** A heap holding a save holds the objects made for its `i`-th card under counter value `base + i + 1`. */
  lemma HoldsAt(h: Heap, made: seq<Made>, base: nat, i: nat)
    requires HoldsSave(h, made, base) && i < |made|
    ensures HoldsRecord(h, base + i + 1, made[i])
  {
  }

  /** The quirk of src/worldSaver.js:71: `parent` is the card's own record, read back from `this.map`. */
  lemma DataParent(card: Card, intrinsic: seq<string>, defaultClass: string, k: nat)
    requires card.parent.Some? && "parent" in intrinsic && "className" !in intrinsic
    requires card.shapeOptions.Some? ==>
      DistinctKeys(card.shapeOptions.value) && Get(card.shapeOptions.value, "parent").None?
    ensures Get(MadeFor(card, intrinsic, defaultClass, k).data, "parent") == Some(Ptr(RecordObj(k)))
  {
    CardDataGet(card, intrinsic, defaultClass, Ptr(RecordObj(k)), "parent");
  }

  /** A heap holding the objects made for a card with a parent has the card's own record as the data's `parent`. */
  lemma ParentIsOwnRecord(h: Heap, card: Card, intrinsic: seq<string>, defaultClass: string, k: nat)
    requires HoldsRecord(h, k, MadeFor(card, intrinsic, defaultClass, k))
    requires card.parent.Some? && "parent" in intrinsic && "className" !in intrinsic
    requires card.shapeOptions.Some? ==>
      DistinctKeys(card.shapeOptions.value) && Get(card.shapeOptions.value, "parent").None?
    ensures RecordObj(k) in h && h[RecordObj(k)] == RecordNode(k)
    ensures DataObj(k) in h && h[DataObj(k)].Plain? && Get(h[DataObj(k)].props, "parent") == Some(Ptr(RecordObj(k)))
  {
    DataParent(card, intrinsic, defaultClass, k);
  }

  /** The records of a save as the array `save` returns. */
  function RecordArray(base: nat, n: nat): (r: seq<Val>)
    ensures |r| == n && forall i :: 0 <= i < n ==> r[i] == Ptr(RecordObj(base + i + 1))
  {
    seq(n, i requires 0 <= i < n => Ptr(RecordObj(base + i + 1)))
  }

  /** The objects made for one more card are added on top of the earlier ones. */
  lemma AddRecordsSnoc(objects: Heap, made: seq<Made>, base: nat, i: nat)
    requires i < |made|
    ensures AddRecords(objects, made[..i + 1], base) ==
      AddRecords(objects, made[..i], base)[RecordObj(base + i + 1) := made[i].record][DataObj(base + i + 1) := Plain(made[i].data)]
  {
    var d := made[..i + 1];
    assert |d| == i + 1 && d[..i] == made[..i] && d[i] == made[i];
  }

  /** One more card sends its id to its record. */
  lemma MapRecordsSnoc(recordOf: map<string, Ref>, cards: seq<Card>, base: nat, i: nat)
    requires i < |cards|
    ensures MapRecords(recordOf, cards[..i + 1], base) == MapRecords(recordOf, cards[..i], base)[cards[i].id := RecordObj(base + i + 1)]
  {
    var c := cards[..i + 1];
    assert |c| == i + 1 && c[..i] == cards[..i] && c[i] == cards[i];
  }

  /** A heap that adds the `i`-th objects to those of the first `i` holds those of the first `i + 1`. */
  lemma AddRecordsNext(objects: Heap, made: seq<Made>, base: nat, i: nat, k: nat, prev: Heap, h: Heap)
    requires i < |made| && k == base + i + 1 && prev == AddRecords(objects, made[..i], base)
    requires h == prev[RecordObj(k) := made[i].record][DataObj(k) := Plain(made[i].data)]
    ensures h == AddRecords(objects, made[..i + 1], base)
  {
    AddRecordsSnoc(objects, made, base, i);
  }

  /** A map that sends the `i`-th card to its record after the first `i` is that of the first `i + 1`. */
  lemma MapRecordsNext(recordOf: map<string, Ref>, cards: seq<Card>, base: nat, i: nat, k: nat, prev: map<string, Ref>, m: map<string, Ref>)
    requires i < |cards| && k == base + i + 1 && prev == MapRecords(recordOf, cards[..i], base)
    requires m == prev[cards[i].id := RecordObj(k)]
    ensures m == MapRecords(recordOf, cards[..i + 1], base)
  {
    MapRecordsSnoc(recordOf, cards, base, i);
  }

  /**
   * The state of `collectData` after its first `i` rounds over `cards`, begun with counter value
   * `base`, objects `objects0` and map `recordOf0`.
   */
  ghost predicate Rounds(id: nat, objects: Heap, recordOf: map<string, Ref>, cards: seq<Card>, made: seq<Made>, i: nat,
                         base: nat, objects0: Heap, recordOf0: map<string, Ref>)
  {
    && i <= |cards| && i <= |made|
    && Counted(objects, recordOf, id) && id == base + i
    && objects == AddRecords(objects0, made[..i], base)
    && recordOf == MapRecords(recordOf0, cards[..i], base)
  }

  /** Round `i` adds the objects made for the `i`-th card under the next counter value and keeps `Rounds`. */
  lemma RoundsNext(cards: seq<Card>, intrinsic: seq<string>, defaultClass: string, i: nat, base: nat,
                   objects0: Heap, recordOf0: map<string, Ref>,
                   id: nat, objects: Heap, recordOf: map<string, Ref>,
                   id': nat, objects': Heap, recordOf': map<string, Ref>)
    requires i < |cards|
    requires Rounds(id, objects, recordOf, cards, SaveObjects(cards, intrinsic, defaultClass, base), i, base, objects0, recordOf0)
    requires id' == id + 1 && Counted(objects', recordOf', id')
    requires objects' ==
      objects[RecordObj(id') := RecordNode(id')][DataObj(id') := Plain(CardData(cards[i], intrinsic, defaultClass, Ptr(RecordObj(id'))))]
    requires recordOf' == recordOf[cards[i].id := RecordObj(id')]
    ensures Rounds(id', objects', recordOf', cards, SaveObjects(cards, intrinsic, defaultClass, base), i + 1, base, objects0, recordOf0)
  {
    var made := SaveObjects(cards, intrinsic, defaultClass, base);
    SaveObjectsAt(cards, intrinsic, defaultClass, base, i, id');
    AddRecordsNext(objects0, made, base, i, id', objects, objects');
    MapRecordsNext(recordOf0, cards, base, i, id', recordOf, recordOf');
  }

  /** Before the first round nothing is added. */
  lemma RoundsStart(id: nat, objects: Heap, recordOf: map<string, Ref>, cards: seq<Card>, made: seq<Made>)
    requires Counted(objects, recordOf, id) && |made| == |cards|
    ensures Rounds(id, objects, recordOf, cards, made, 0, id, objects, recordOf)
  {
    assert made[..0] == [] && cards[..0] == [];
  }

  /** After the last round every card's objects are added. */
  lemma RoundsDone(id: nat, objects: Heap, recordOf: map<string, Ref>, cards: seq<Card>, made: seq<Made>,
                   base: nat, objects0: Heap, recordOf0: map<string, Ref>)
    requires |made| == |cards| && Rounds(id, objects, recordOf, cards, made, |cards|, base, objects0, recordOf0)
    ensures Counted(objects, recordOf, id) && id == base + |cards|
    ensures objects == AddRecords(objects0, made, base) && recordOf == MapRecords(recordOf0, cards, base)
  {
    assert cards[..|cards|] == cards && made[..|cards|] == made;
  }

  /** One more record returned. */
  lemma RecordRefsNext(base: nat, i: nat)
    ensures RecordRefs(base, i) + [RecordObj(base + i + 1)] == RecordRefs(base, i + 1)
  {
    var a, b := RecordRefs(base, i) + [RecordObj(base + i + 1)], RecordRefs(base, i + 1);
    forall j | 0 <= j < |b| ensures a[j] == b[j] {
    }
  }

  /** Every object made carries a counter value already handed out, and every record is kept. */
  predicate Counted(objects: Heap, recordOf: map<string, Ref>, id: nat) {
    && (forall r :: r in objects ==> !r.WorldObj? && 1 <= r.n <= id)
    && forall a :: a in recordOf ==> recordOf[a] in objects
  }

  /**
   * One round of `collectData`'s loop: the record is entered in `this.map`, and the record with
   * its id text and its data object are added. The counter stays ahead of every object.
   */
  lemma CollectStep(objects: Heap, recordOf: map<string, Ref>, key: string, k: nat, data: seq<Prop<Val>>)
    requires k >= 1 && Counted(objects, recordOf, k - 1)
    ensures Counted(objects[RecordObj(k) := RecordNode(k)][DataObj(k) := Plain(data)], recordOf[key := RecordObj(k)], k)
  {
  }

  /** A heap holding the objects of a save holds each of them at its place. */
  lemma SavedIn(h: Heap, objects: Heap, made: seq<Made>, base: nat)
    requires var objs := AddRecords(objects, made, base);
      forall r :: r in objs ==> r in h && h[r] == objs[r]
    ensures HoldsSave(h, made, base)
  {
    var objs := AddRecords(objects, made, base);
    AddRecordsHold(objects, made, base);
    forall j | 0 <= j < |made| ensures HoldsRecord(h, base + j + 1, made[j]) {
      assert HoldsRecord(objs, base + j + 1, made[j]);
    }
  }

  /** Every record of a save is in a heap holding it. */
  lemma RecordsIn(h: Heap, made: seq<Made>, base: nat)
    requires HoldsSave(h, made, base)
    ensures PtrsIn(Arr(RecordArray(base, |made|)), h)
  {
    var items := RecordArray(base, |made|);
    forall j | 0 <= j < |items| ensures PtrsIn(items[j], h) {
      assert HoldsRecord(h, base + j + 1, made[j]);
    }
  }

  /** A record whose data's `parent` is the record itself cannot be written. */
  lemma RecordLoopThrows(h: Heap, k: nat, s: set<Ref>)
    requires Closed(h) && RecordObj(k) in h && h[RecordObj(k)] == RecordNode(k)
    requires DataObj(k) in h && h[DataObj(k)].Plain? && Get(h[DataObj(k)].props, "parent") == Some(Ptr(RecordObj(k)))
    ensures Codec.Canon(h, Ptr(RecordObj(k)), s).Err?
  {
    assert Get(h[RecordObj(k)].props, "data") == Some(Ptr(DataObj(k)));
    CodecFacts.ChildPointsBackThrows(h, RecordObj(k), "data", DataObj(k), "parent", s);
  }

  /** Writing the records of a save throws once one record and its data refer to each other. */
  lemma SaveLoopThrows(h: Heap, made: seq<Made>, base: nat, i: nat)
    requires Closed(h) && HoldsSave(h, made, base) && i < |made|
    requires var k := base + i + 1;
      && RecordObj(k) in h && h[RecordObj(k)] == RecordNode(k)
      && DataObj(k) in h && h[DataObj(k)].Plain? && Get(h[DataObj(k)].props, "parent") == Some(Ptr(RecordObj(k)))
    ensures PtrsIn(Arr(RecordArray(base, |made|)), h)
    ensures Codec.Canon(h, Arr(RecordArray(base, |made|)), {}).Err?
  {
    // The steps below rest on the contracts they call, not on these definitions.
    hide IdText;
    RecordsIn(h, made, base);
    var items := RecordArray(base, |made|);
    var k := base + i + 1;
    assert items[i] == Ptr(RecordObj(k));
    forall s ensures Codec.Canon(h, items[i], s).Err? {
      RecordLoopThrows(h, k, s);
    }
    CodecFacts.ElementThrows(h, items, i, {});
  }

  /**
   * Because of the quirk of src/worldSaver.js:71 a record and its data refer to each other, so
   * writing the records of a save in which some card has a parent throws the circular-structure
   * `TypeError`.
   */
  lemma StringifyParentedSaveThrows(h: Heap, cards: seq<Card>, intrinsic: seq<string>, defaultClass: string, base: nat, i: nat)
    requires i < |cards| && cards[i].parent.Some?
    requires "parent" in intrinsic && "className" !in intrinsic
    requires cards[i].shapeOptions.Some? ==>
      DistinctKeys(cards[i].shapeOptions.value) && Get(cards[i].shapeOptions.value, "parent").None?
    requires Closed(h) && HoldsSave(h, SaveObjects(cards, intrinsic, defaultClass, base), base)
    ensures PtrsIn(Arr(RecordArray(base, |cards|)), h)
    ensures Codec.Canon(h, Arr(RecordArray(base, |cards|)), {}).Err?
  {
    // The steps below rest on the contracts they call, not on these definitions.
    hide SaveObjects, IdText, CardData;
    var made := SaveObjects(cards, intrinsic, defaultClass, base);
    SaveObjectsAt(cards, intrinsic, defaultClass, base, i, base + i + 1);
    SavedRecordLoop(h, made, base, i, base + i + 1, cards[i], intrinsic, defaultClass);
    SaveLoopThrows(h, made, base, i);
  }

  /** The `i`-th record of a save, made for a card with a parent, and its data refer to each other. */
  lemma SavedRecordLoop(h: Heap, made: seq<Made>, base: nat, i: nat, k: nat, card: Card, intrinsic: seq<string>, defaultClass: string)
    requires HoldsSave(h, made, base) && i < |made| && k == base + i + 1
    requires made[i] == MadeFor(card, intrinsic, defaultClass, k)
    requires card.parent.Some? && "parent" in intrinsic && "className" !in intrinsic
    requires card.shapeOptions.Some? ==>
      DistinctKeys(card.shapeOptions.value) && Get(card.shapeOptions.value, "parent").None?
    ensures RecordObj(k) in h && h[RecordObj(k)] == RecordNode(k)
    ensures DataObj(k) in h && h[DataObj(k)].Plain? && Get(h[DataObj(k)].props, "parent") == Some(Ptr(RecordObj(k)))
  {
    HoldsAt(h, made, base, i);
    ParentIsOwnRecord(h, card, intrinsic, defaultClass, k);
  }

  // ----- The saver -----

  /** The cards of `cards` in the order of the sorted map's entries. */
  function Placed(cards: seq<Card>, sorted: seq<Prop<nat>>): (r: seq<Card>)
    requires InRange(cards, sorted)
    ensures |r| == |sorted| && forall i :: 0 <= i < |sorted| ==> r[i] == cards[sorted[i].value]
  {
    seq(|sorted|, i requires 0 <= i < |sorted| => cards[sorted[i].value])
  }

  /**
   * The saver's state: the counter `id`, `this.map` from a saved actor (named by its id) to the
   * record made for it, and the objects made so far, `objects`.
   */
  class WorldSaver {
    var id: nat
    var recordOf: map<string, Ref>
    var objects: Heap
    const defaultClass: string

    ghost predicate Valid()
      reads this
    {
      Counted(objects, recordOf, id)
    }

    constructor(defaultClass: string)
      ensures Valid()
      ensures id == 0 && recordOf == map[] && objects == map[] && this.defaultClass == defaultClass
    {
      recordOf := map[];
      id := 0;
      this.defaultClass := defaultClass;
      objects := map[];
    }

    /** `this.map.get(card)`: the card's record, or `undefined`. */
    function Own(card: Card): Val
      reads this
    {
      if card.id in recordOf then Ptr(recordOf[card.id]) else Undefined
    }

    /**
     * Bumps the counter and returns it as at least four digits (`IdTextValue`, `IdTextWidth`
     * and `IdTextInjective` state what those digits are).
     */
    method NewId() returns (s: string)
      modifies this
      ensures id == old(id) + 1 && s == IdText(id)
      ensures recordOf == old(recordOf) && objects == old(objects)
    {
      id := id + 1;
      s := IdText(id);
    }

    /** The data object of `card`: its intrinsic properties, then its shape options. */
    method CollectCardData(card: Card, intrinsic: seq<string>) returns (result: seq<Prop<Val>>)
      ensures result == CardData(card, intrinsic, defaultClass, Own(card))
    {
      result := [];
      for j := 0 to |intrinsic|
        invariant result == Intrinsics(card, intrinsic[..j], defaultClass, Own(card))
      {
        var prop := intrinsic[j];
        if card.ctor != defaultClass {
          result := Set(result, "className", Str(card.ctor));
        }
        if prop == "parent" {
          if card.parent.Some? {
            result := Set(result, prop, Own(card));
          }
        } else if Truthy(FieldOf(card, prop)) {
          result := Set(result, prop, FieldOf(card, prop));
        }
        assert intrinsic[..j + 1][..j] == intrinsic[..j];
      }
      assert intrinsic[..|intrinsic|] == intrinsic;
      if card.shapeOptions.Some? {
        var opts := card.shapeOptions.value;
        ghost var start := result;
        for j := 0 to |opts|
          invariant result == CopyAll(start, opts[..j])
        {
          result := Set(result, opts[j].key, opts[j].value);
          assert opts[..j + 1][..j] == opts[..j];
        }
        assert opts[..|opts|] == opts;
      }
    }

    /**
     * One round of `collectData`'s loop for `card`: a record with a fresh id, entered in
     * `this.map` before the card's data object is collected, so that `parent` can read it back.
     */
    method CollectOne(card: Card, intrinsic: seq<string>) returns (obj: Ref)
      requires Valid()
      modifies this
      ensures Valid()
      ensures id == old(id) + 1 && obj == RecordObj(id)
      ensures recordOf == old(recordOf)[card.id := obj]
      ensures objects == old(objects)[obj := RecordNode(id)][DataObj(id) := Plain(CardData(card, intrinsic, defaultClass, Ptr(obj)))]
    {
      // The steps below rest on the contracts they call, not on these definitions.
      hide IdText, CardData;
      ghost var objects0, recordOf0 := objects, recordOf;
      var idText := NewId();
      obj := RecordObj(id);
      recordOf := recordOf[card.id := obj];
      assert Own(card) == Ptr(obj);
      var data := CollectCardData(card, intrinsic);
      var record := Plain([Prop("id", Str(idText)), Prop("data", Ptr(DataObj(id)))]);
      assert record == RecordNode(id);
      CollectStep(objects0, recordOf0, card.id, id, data);
      objects := objects[obj := record][DataObj(id) := Plain(data)];
    }

    /** The `i`-th round of `collectData`'s loop keeps `Rounds`. */
    method CollectRound(cards: seq<Card>, i: nat, intrinsic: seq<string>, ghost base: nat, ghost objects0: Heap, ghost recordOf0: map<string, Ref>)
      returns (obj: Ref)
      requires i < |cards|
      requires Rounds(id, objects, recordOf, cards, SaveObjects(cards, intrinsic, defaultClass, base), i, base, objects0, recordOf0)
      modifies this
      ensures Rounds(id, objects, recordOf, cards, SaveObjects(cards, intrinsic, defaultClass, base), i + 1, base, objects0, recordOf0)
      ensures obj == RecordObj(base + i + 1)
    {
      // The steps below rest on the contracts they call, not on these definitions.
      hide SaveObjects, AddRecords, MapRecords, IdText, CardData;
      ghost var id1, objects1, recordOf1 := id, objects, recordOf;
      obj := CollectOne(cards[i], intrinsic);
      RoundsNext(cards, intrinsic, defaultClass, i, base, objects0, recordOf0, id1, objects1, recordOf1, id, objects, recordOf);
    }

    /**
     * One record `{id, data}` per card, in order, with fresh counter values; `this.map` sends
     * each card to its record (`AddRecordsFresh` and `AddRecordsHold` state what the new objects
     * hold and that the objects made before are left as they were).
     */
    method CollectData(cards: seq<Card>, intrinsic: seq<string>) returns (result: seq<Ref>)
      requires Valid()
      modifies this
      ensures Valid()
      ensures id == old(id) + |cards|
      ensures result == RecordRefs(old(id), |cards|)
      ensures objects == AddRecords(old(objects), SaveObjects(cards, intrinsic, defaultClass, old(id)), old(id))
      ensures recordOf == MapRecords(old(recordOf), cards, old(id))
    {
      // The steps below rest on the contracts they call, not on these definitions.
      hide SaveObjects, AddRecords, MapRecords;
      RoundsStart(id, objects, recordOf, cards, SaveObjects(cards, intrinsic, defaultClass, id));
      result := [];
      for i := 0 to |cards|
        invariant Rounds(id, objects, recordOf, cards, SaveObjects(cards, intrinsic, defaultClass, old(id)), i, old(id), old(objects), old(recordOf))
        invariant result == RecordRefs(old(id), i)
      {
        var obj := CollectRound(cards, i, intrinsic, old(id), old(objects), old(recordOf));
        RecordRefsNext(old(id), i);
        result := result + [obj];
      }
      RoundsDone(id, objects, recordOf, cards, SaveObjects(cards, intrinsic, defaultClass, old(id)), old(id), old(objects), old(recordOf));
    }

    /**
     * `save`: the savable actors, sorted parents first, each given a record. When the sort
     * finds a cycle nothing is made and the error is returned.
     */
    method Save(actors: seq<Card>, intrinsic: seq<string>) returns (r: Result<seq<Ref>, SortError>)
      requires Valid() && forall a :: a in actors ==> WellFormed(a)
      modifies this
      ensures Valid()
      ensures Sort(Savables(actors)).Err? ==>
        r == Err(Sort(Savables(actors)).error) && id == old(id) && objects == old(objects) && recordOf == old(recordOf)
      ensures Sort(Savables(actors)).Ok? ==>
        && InRange(Savables(actors), Sort(Savables(actors)).value)
        && var placed := Placed(Savables(actors), Sort(Savables(actors)).value);
        && r == Ok(RecordRefs(old(id), |placed|))
        && id == old(id) + |placed|
        && objects == AddRecords(old(objects), SaveObjects(placed, intrinsic, defaultClass, old(id)), old(id))
        && recordOf == MapRecords(old(recordOf), placed, old(id))
    {
      var cards: seq<Card> := [];
      for i := 0 to |actors|
        invariant cards == Savables(actors[..i])
      {
        var actor := actors[i];
        if actor.isCard && !Truthy(actor.noSave) {
          cards := cards + [actor];
        }
        assert actors[..i + 1][..i] == actors[..i];
      }
      assert actors[..|actors|] == actors;
      var sorted;
      ghost var dequeues;
      sorted, dequeues := TopologicalSort(cards);
      if sorted.Err? {
        r := Err(sorted.error);
      } else {
        SortInRange(cards);
        var records := CollectData(Placed(cards, sorted.value), intrinsic);
        r := Ok(records);
      }
    }
  }
}
