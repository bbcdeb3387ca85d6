# World saving and the bitcoin tracker, modelled in Dafny

This project models two parts of the microverse code base.

**`WorldSaver`** (src/worldSaver.js) writes a world out as JSON and reads it back.
- `save` keeps the actors that are cards and not marked `_noSave`.
- `topologicalSort` orders those cards so that every parent comes before its children. It throws "actors make a cycle" when a card comes round a second time with its parent still unplaced.
- `collectData` gives each card a record `{id, data}`:
  - the id is a zero-padded counter;
  - the data holds the card's class name, its truthy intrinsic properties and its shape options.
- `stringify` is a canonical JSON encoder:
  - object keys are written in sorted order;
  - `Map`s become `{__map: true, values: [...]}`;
  - `undefined` members are skipped;
  - an object met again while it is still being written throws the circular-structure `TypeError`.
- `parse` undoes the `Map` tagging with a `JSON.parse` reviver.

**The bitcoin demo** (behaviors/defaultDemo/bitcoinTracker.js) has two actors.
- `BitcoinTrackerActor` keeps a price history. It starts from a `{date: 0, amount: 0}` sentinel and is capped at 300 entries. It accepts live readings at least a second apart and historic ones more than 25 seconds newer.
- `BarGraphActor` keeps a sliding window of the latest values.

The model is organised as follows.
- Plain logic becomes datatypes, functions and lemmas.
- Objects whose fields the source updates become classes with `modifies` clauses:
  - the saver's counter, `this.map` and the objects it builds (`Saver.WorldSaver`);
  - the shared `seen` set of the encoder (`Codec.SeenSet`);
  - the tracker's history and the bar graph's card data (`BitcoinTracker.TrackerActor`, `BitcoinTracker.BarGraphActor`).
- The loops of the source become methods with loop invariants. Each one is proved equal to a specification function:
  - `TopoSort.TopologicalSort` against `TopoSort.Sort`;
  - `Codec.StringifyInner` and its branches against `Codec.Canon`;
  - `Saver.WorldSaver.CollectData` against `Saver.SaveObjects`/`Saver.AddRecords`.
- The properties the source promises are then lemmas about those functions.
  - `stringify` succeeds on every acyclic graph that reaches no `Map` twice, and throws on every graph that reaches a cycle (`CodecFacts.StringifyMapsOnce`, `CodecFacts.CycleReachableThrows`).
  - `parse(stringify(v))` gives back `RoundTrip.Decoded(v)`, a copy of `v` with sorted object keys, `Map`s rebuilt and members without output dropped, whenever no object carries its own `__map` property (`RoundTrip.ParseStringify`).

JavaScript values live in a heap (`JsValue.Heap`, a map from references to plain objects and `Map`s), so that object identity is explicit. The `seen` checks, the `parent` quirk and `this.map` all depend on that identity.

Modules:
- `JsValue`: values, property lists with JavaScript's insertion-order semantics.
- `Json`: JSON trees and their text.
- `Decimal`: decimal text of integers, `padStart`.
- `KeyOrder`: the default `Array.prototype.sort` order on keys.
- `Cards`: actors and the `save` filter.
- `TopoSort`: the parent-first sort.
- `Saver`: the `WorldSaver` class.
- `Codec`: the encoder.
- `CodecFacts`: what the encoder guarantees.
- `Reviver`: the decoder.
- `RoundTrip`: decoding what was encoded.
- `BitcoinTracker`: the two actors.
- `Wrappers`: `Option`/`Result`.

Behaviours the model reproduces as the code has them:
- `collectCardData` writes `parent` as `this.map.get(card)`. That is the card's *own* record, not its parent's, because the record is entered in `this.map` before the data is collected. So every record of a card with a parent refers to its data and back, and `stringify` of such a save throws (`Saver.StringifyParentedSaveThrows`).
- The chain C→B→A, listed child first, has no cycle, yet the sort throws "actors make a cycle" on it: the queue loop gives up once a card comes round a second time (`TopoSort.ChildFirstChainThrows`).
- A `Map` is added to `seen` and never removed. So the same `Map` reached twice throws even without a cycle (`CodecFacts.SharedMapThrows`). The same plain object reached twice is written twice (`CodecFacts.SharedObjectWritten`).
- A plain object with a truthy `__map` property does not survive the round trip (`RoundTrip.TaggedObjectBecomesMap`, `RoundTrip.TaggedNumberThrows`).
- Several entries pushed at once can leave more than 300 in the history (`BitcoinTracker.TrimMultiAppendExceeds`).

## Model

| member | source | states |
|---|---|---|
| Saver.WorldSaver.constructor | src/worldSaver.js:9-13 | a new saver has counter 0, an empty `this.map` and no records |
| Saver.WorldSaver.NewId | src/worldSaver.js:15-17 | bumps the counter by one and returns its padded text; nothing else changes |
| Decimal.IdTextValue | src/worldSaver.js:16 | the digits of an id denote the counter value it was made from |
| Decimal.IdTextInjective | src/worldSaver.js:16 | distinct counter values give distinct ids |
| Decimal.IdTextWidth | src/worldSaver.js:16 | ids are at least four characters, exactly four below 10000 |
| Decimal.NatToDecimalValue | src/worldSaver.js:16 | the decimal text of a natural number reads back as that number |
| Decimal.IntToDecimalValue | src/worldSaver.js:88 | the text `${node}` of an integer reads back as that integer |
| Cards.SavablesMembers | src/worldSaver.js:20-25 | an actor is handed to the sort exactly when it is an actor of the model, a card and not `_noSave` |
| Cards.SavablesAppend | src/worldSaver.js:21-25 | the filter keeps the actor manager's order |
| Cards.SavablesDistinct | src/worldSaver.js:21-25 | the cards filtered from distinct actors have distinct ids |
| TopoSort.TopologicalSort | src/worldSaver.js:31-49 | the queue loop returns what the sort specification gives, error included, after at most two dequeues per card |
| TopoSort.SortInRange | src/worldSaver.js:36-47 | a sort that returns maps ids only to input cards |
| TopoSort.LinearizeKeeps | src/worldSaver.js:36-47 | each step keeps "queue plus placed cards are all cards, once each, parents placed first" |
| TopoSort.PlaceKeeps | src/worldSaver.js:38-40 | placing the card at the front appends it to the result and keeps that invariant |
| TopoSort.SortParentsFirst | src/worldSaver.js:31-49 | when the sort returns, every card is in it exactly once, keyed by its id, after its parent |
| TopoSort.CycleThrows | src/worldSaver.js:43 | a non-empty set of cards closed under "parent of" makes the sort throw |
| TopoSort.MissingParentThrows | src/worldSaver.js:38-43 | a card whose parent is not among the cards makes the sort throw |
| TopoSort.ParentFirstKeepsOrder | src/worldSaver.js:31-49 | cards listed parents first come out in input order |
| TopoSort.InputOrderStep | src/worldSaver.js:38-40 | with parents listed first, each card is placeable when it is reached and is appended |
| TopoSort.ChildFirstChainThrows | src/worldSaver.js:36-47 | C→B→A listed child first throws "actors make a cycle"; listed parent first it sorts |
| Saver.WorldSaver.CollectCardData | src/worldSaver.js:63-84 | the data object is the intrinsic properties followed by the shape options, with `parent` read from `this.map` |
| Saver.IntrinsicsGet | src/worldSaver.js:65-76 | `className` is present exactly when there are intrinsic properties and the class is not the default; each listed property holds its truthy field (`parent`: the card's entry in `this.map`); nothing else |
| Saver.CopyAllGet | src/worldSaver.js:78-82 | after the shape-options copy, each option name holds the option's value and other names are unchanged |
| Saver.CardDataGet | src/worldSaver.js:63-84 | the whole data object: a shape option wins, otherwise `className` and the intrinsic properties, and no other property |
| Saver.CardDataDistinct | src/worldSaver.js:63-84 | the data object has one property per name |
| Saver.DataParent | src/worldSaver.js:55-71 | a card with a parent gets its own record as the data's `parent` |
| Saver.WorldSaver.CollectOne | src/worldSaver.js:54-58 | one round: a fresh id, the record entered in `this.map` before the data is collected, record and data stored |
| Saver.WorldSaver.CollectRound | src/worldSaver.js:53-59 | one round of the loop keeps the loop's state description |
| Saver.WorldSaver.CollectData | src/worldSaver.js:51-61 | one record per card, in order, with consecutive fresh ids; `this.map` sends each card to its record; the objects are the old ones plus those made |
| Saver.SaveObjectsAt | src/worldSaver.js:53-59 | the `i`-th card's objects are made with counter value `base + i + 1` |
| Saver.AddRecordsFresh | src/worldSaver.js:53-59 | only objects with the new counter values are added; earlier objects are untouched |
| Saver.AddRecordsHold | src/worldSaver.js:53-59 | every card's record and data are in the resulting heap under its counter value |
| Saver.AddRecordsSnoc | src/worldSaver.js:53-59 | one more card adds exactly its record and data object |
| Saver.MapRecordsSnoc | src/worldSaver.js:55 | one more card sends its id to its record in `this.map` |
| Saver.CollectStep | src/worldSaver.js:53-59 | each round keeps the counter ahead of every object made |
| Saver.SavedIn | src/worldSaver.js:51-61 | a heap containing the objects of a save holds each card's record and data |
| Saver.ParentIsOwnRecord | src/worldSaver.js:53-76 | in such a heap the record of a card with a parent is `{id, data}` and that data's `parent` is the record itself |
| Saver.RecordLoopThrows | src/worldSaver.js:71-105 | a record whose data refers back to it cannot be stringified |
| Saver.SaveLoopThrows | src/worldSaver.js:92-104 | the records array throws as soon as one record loops with its data |
| Saver.StringifyParentedSaveThrows | src/worldSaver.js:19-130 | stringify of the records of a save with a parented card throws the circular-structure error |
| Saver.WorldSaver.Save | src/worldSaver.js:19-29 | on a cycle, the error and no state change; otherwise the savable cards in sorted order each get a record, as `CollectData` states |
| Codec.StringifyInner | src/worldSaver.js:86-125 | the text written (or `undefined`, or the throw) and the `seen` left are those of the specification `Canon` |
| Codec.StringifyArray | src/worldSaver.js:92-99 | an array is `[`, its elements comma-separated, `]`, elements encoded left to right sharing `seen` |
| Codec.ArrayItem | src/worldSaver.js:95-96 | one loop pass: the separator, then element `i` |
| Codec.StringifyElement | src/worldSaver.js:96 | an element with no output is written as `null` |
| Codec.StringifyRef | src/worldSaver.js:101-124 | an object already in `seen` throws; a `Map` is written as its replacement object; a plain object by its sorted keys |
| Codec.StringifyMap | src/worldSaver.js:109-112 | a `Map` is written as `{"__map":true,"values":[[k,v],...]}` with the entries in order |
| Codec.MapItem | src/worldSaver.js:110 | one entry of `[...node]` appended to the values |
| Codec.StringifyPair | src/worldSaver.js:110 | an entry is written as the two-element array `[key,value]` |
| Codec.StringifyObject | src/worldSaver.js:114-124 | a plain object is `{`, the members of its sorted keys, `}` |
| Codec.StringifyMembers | src/worldSaver.js:115-122 | the members for the given keys, in that order, comma-separated, skipping those with no output |
| Codec.ObjectItem | src/worldSaver.js:117-121 | one loop pass: a member is written unless its value has no output |
| Codec.Stringify | src/worldSaver.js:127-130 | a fresh `seen` per call; the text is that of `Canon` from an empty set |
| Codec.CanonItemsErr | src/worldSaver.js:94-97 | an element that throws makes the whole array throw |
| Codec.CanonItemsGrows | src/worldSaver.js:94-97 | each element is encoded from the `seen` its predecessors left |
| Codec.CanonPropsGrows | src/worldSaver.js:116-122 | each member is encoded from the `seen` the earlier keys left |
| Codec.SortedKeysPresent | src/worldSaver.js:114-118 | every sorted key names a property of the object |
| Codec.MapWrapperText | src/worldSaver.js:110-111 | the wrapper's text is `{"__map":true,"values":[...]}` |
| KeyOrder.SortPermutes | src/worldSaver.js:114 | sorting the keys only rearranges them |
| KeyOrder.SortSorted | src/worldSaver.js:114 | sorted keys are in order |
| KeyOrder.SortIgnoresOrder | src/worldSaver.js:114 | the sorted keys do not depend on the order the keys came in |
| KeyOrder.SortDistinct | src/worldSaver.js:114 | distinct keys come out strictly increasing |
| KeyOrder.BelowTotal | src/worldSaver.js:114 | any two different keys are ordered one way or the other |
| KeyOrder.BelowTransitive | src/worldSaver.js:114 | the key order is transitive |
| Json.EscapePlain | src/worldSaver.js:121 | strings without quotes, backslashes or control characters are written unescaped |
| Json.RenderItemsSnoc | src/worldSaver.js:95-96 | one more element adds a comma and its text |
| JsValue.SetGet | src/worldSaver.js:64-83 | after `obj[k] = v`, `obj[k]` is `v` and every other property is unchanged |
| JsValue.SetKeys | src/worldSaver.js:64-83 | assignment keeps the existing names in place and puts a new name last |
| JsValue.SetDistinct | src/worldSaver.js:64-83 | assignment keeps property names unique |
| CodecFacts.CanonAcyclic | src/worldSaver.js:86-125 | an acyclic value graph without `Map`s always encodes and leaves `seen` as it found it |
| CodecFacts.StringifyAcyclic | src/worldSaver.js:127-130 | `stringify` of an acyclic graph without `Map`s never throws |
| CodecFacts.CanonMapsOnce | src/worldSaver.js:86-125 | an acyclic value graph that reaches no `Map` twice always encodes, and `seen` gains exactly the `Map`s it reaches |
| CodecFacts.StringifyMapsOnce | src/worldSaver.js:127-130 | `stringify` of an acyclic graph that reaches no `Map` twice never throws; afterwards `seen` holds exactly the `Map`s reached |
| CodecFacts.CanonMeetsCycle | src/worldSaver.js:86-125 | a value that refers into a set of objects each of which refers back into the set throws, whatever `seen` holds |
| CodecFacts.CycleReachableThrows | src/worldSaver.js:101-130 | `stringify` throws on any value that reaches a cycle of any length, by a path of any length through array elements, properties or `Map` entries |
| CodecFacts.SharedMapThrows | src/worldSaver.js:103-112 | the same `Map` reached twice throws, because it stays in `seen` |
| CodecFacts.SharedObjectWritten | src/worldSaver.js:103-123 | the same plain object reached twice is written twice |
| CodecFacts.EmptyObjectWritten | src/worldSaver.js:114-124 | an object with no properties is written as `{}` and `seen` is restored |
| CodecFacts.PropertyToAncestorThrows | src/worldSaver.js:103-105 | a property referring to an object still being written throws |
| CodecFacts.SelfReferenceThrows | src/worldSaver.js:103-105 | an object that is its own property value throws |
| CodecFacts.ChildPointsBackThrows | src/worldSaver.js:103-105 | two objects that refer to each other throw |
| CodecFacts.ElementThrows | src/worldSaver.js:94-97 | an array with an element that always throws, throws |
| CodecFacts.CanonPropsKeys | src/worldSaver.js:114-122 | for strictly ordered keys the members come out strictly ordered, each named by a key |
| CodecFacts.ObjectKeysSorted | src/worldSaver.js:114-124 | a plain object is written with strictly increasing member names, all names of its own properties |
| CodecFacts.ObjectOrderFree | src/worldSaver.js:114 | the output does not depend on the order the properties were added |
| CodecFacts.CanonPropsSameProps | src/worldSaver.js:116-122 | the same names and values give the same members |
| CodecFacts.SameNames | src/worldSaver.js:114 | two property lists with the same names have the same multiset of keys |
| CodecFacts.NameCount | src/worldSaver.js:114 | each name occurs once among distinct property names |
| CodecFacts.ScalarOutput | src/worldSaver.js:87-89 | scalars: no output exactly for `undefined` and functions; `null` exactly for `null`, `NaN` and infinities; `seen` untouched |
| CodecFacts.NumberText | src/worldSaver.js:88 | an integer is written as its decimal text |
| CodecFacts.ScalarArrayHoles | src/worldSaver.js:92-99 | array elements keep their places; those with no output become `null` |
| CodecFacts.ScalarObjectSkips | src/worldSaver.js:116-122 | object members with no output are dropped; the others keep their encoded value |
| Reviver.FindKey | src/worldSaver.js:135 | the position of the `Map` key that is SameValueZero to the given one, or -1 when none is |
| Reviver.MapSet | src/worldSaver.js:135 | `map.set`: a new key goes last; an existing one keeps its place and original key, takes the new value, and every other entry is unchanged |
| Reviver.EntryArrays | src/worldSaver.js:135 | iterating a `Map` yields one `[key, value]` array per entry |
| Reviver.CollectNames | src/worldSaver.js:133 | the parsed object has one property per distinct member name, in order of first occurrence, holding the last value given to that name |
| Reviver.CollectDistinct | src/worldSaver.js:133 | with distinct member names the parsed object keeps the members as written |
| Reviver.ReviveItems | src/worldSaver.js:133-138 | a revived array has one element per element |
| Reviver.ReviveProps | src/worldSaver.js:133-138 | a revived object keeps its property names in order |
| Reviver.ReviveUntagged | src/worldSaver.js:134-137 | a tree without `__map` members comes back unchanged |
| Reviver.ReviveItemsEach | src/worldSaver.js:133-138 | an array revives exactly when each element does, element by element |
| Reviver.AddEntriesFresh | src/worldSaver.js:135 | `new Map` over entries with fresh keys appends them in order |
| RoundTrip.CanonUntagged | src/worldSaver.js:86-125 | without `Map`s and `__map` properties, the output has no `__map` member and no repeated names |
| RoundTrip.ParseAfterStringify | src/worldSaver.js:127-139 | without `Map`s and `__map` properties, parse gives back object for object what stringify wrote |
| RoundTrip.PrimitiveText | src/worldSaver.js:86-139 | a primitive is written without touching `seen` and decodes to itself |
| RoundTrip.PrimitivePair | src/worldSaver.js:110-135 | a `Map` entry of primitives is written as `[key,value]` and decodes back |
| RoundTrip.CanonPairsPrimitive | src/worldSaver.js:110 | all entries of a `Map` of primitives are written and decode back |
| RoundTrip.DistinctDecodedKeys | src/worldSaver.js:135 | distinct primitive keys stay distinct as `Map` keys once decoded |
| RoundTrip.ReviveMapWrapper | src/worldSaver.js:134-135 | the tagged wrapper revives to `new Map` over its revived entries |
| RoundTrip.WrapperRevives | src/worldSaver.js:110-135 | the wrapper around written entries revives to those entries |
| RoundTrip.MapRoundTrip | src/worldSaver.js:109-135 | a `Map` of primitives with distinct keys stays in `seen` and decodes to a `Map` with the same entries in order |
| RoundTrip.ParseStringify | src/worldSaver.js:127-139 | for an acyclic graph without `__map` properties that reaches no `Map` twice, `stringify` writes a text exactly when the value has output, and `parse` gives back its decoded copy: scalars as themselves, `NaN` and infinities as `null`, arrays element by element with `null` for holes, objects with sorted members and those without output dropped, `Map`s as new `Map`s of their decoded entries |
| RoundTrip.CanonDecodes | src/worldSaver.js:86-138 | whatever is written for a value of such a graph, whatever `seen` held, parses back to its decoded copy |
| RoundTrip.ItemsDecode | src/worldSaver.js:92-99 | written array elements parse back to the decoded elements, `null` standing for those without output |
| RoundTrip.ObjectDecodes | src/worldSaver.js:114-138 | a written plain object parses back to a plain object, not a `Map`, with its decoded members in sorted order |
| RoundTrip.PropsDecode | src/worldSaver.js:116-122 | the written members parse back to the decoded properties, in key order, without those that had no output |
| RoundTrip.MapDecodes | src/worldSaver.js:109-135 | a written `Map` parses back to a new `Map` set entry by entry from its decoded entries |
| RoundTrip.PairsDecode | src/worldSaver.js:110 | the written entries parse back to `[key, value]` arrays of the decoded entries |
| RoundTrip.PairDecodes | src/worldSaver.js:110 | one written entry parses back to the array of its decoded key and value |
| RoundTrip.AddEntriesSetAll | src/worldSaver.js:135 | `new Map` over `[key, value]` arrays sets each entry in turn, in order |
| RoundTrip.ReviveSnoc | src/worldSaver.js:132-138 | one more member parses to one more property, holding its parsed value |
| RoundTrip.SortedDistinct | src/worldSaver.js:114 | member names in strictly increasing order are distinct |
| RoundTrip.DecodedUntagged | src/worldSaver.js:134 | an object without `__map` decodes to one without `__map` |
| RoundTrip.RevivePlain | src/worldSaver.js:133-137 | an object with distinct names, none `__map`, parses to a plain object of its parsed members |
| RoundTrip.ReviveOne | src/worldSaver.js:133-138 | an object with one member revives through its member |
| RoundTrip.TaggedObjectBecomesMap | src/worldSaver.js:134-135 | a plain `{"__map":true}` is parsed as an empty `Map` |
| RoundTrip.TaggedNumberThrows | src/worldSaver.js:134-135 | a truthy `__map` with a numeric `values` makes parsing throw |
| BitcoinTracker.TrackerActor.constructor | behaviors/defaultDemo/bitcoinTracker.js:1-8 | a tracker starts with the history its card data carries and nothing announced |
| BitcoinTracker.TrackerActor.Setup | behaviors/defaultDemo/bitcoinTracker.js:2-8 | a missing history becomes the sentinel `[{date:0, amount:0}]`; an existing one is kept |
| BitcoinTracker.TrackerActor.Latest | behaviors/defaultDemo/bitcoinTracker.js:10-12 | the last entry of the history; `undefined` when it is empty; a `TypeError` when there is none |
| BitcoinTracker.TrackerActor.AddEntries | behaviors/defaultDemo/bitcoinTracker.js:26-30 | the entries are pushed, then trimmed; a missing history, or an empty one after the push, throws and changes nothing |
| BitcoinTracker.TrackerActor.OnBitcoinData | behaviors/defaultDemo/bitcoinTracker.js:14-18 | a reading under 1000 ms after the latest is ignored; otherwise it becomes the latest, the cap holds, and `value-changed` is announced |
| BitcoinTracker.TrackerActor.OnBitcoinHistory | behaviors/defaultDemo/bitcoinTracker.js:20-24 | the prices more than 25000 ms after the latest are appended in order, and their amounts are announced |
| BitcoinTracker.TrimSuffix | behaviors/defaultDemo/bitcoinTracker.js:28-29 | the trim drops at most two entries from the front and keeps the rest in order |
| BitcoinTracker.TrimAppendLast | behaviors/defaultDemo/bitcoinTracker.js:27-29 | one entry appended to a non-empty history becomes its last entry |
| BitcoinTracker.TrimAppendOne | behaviors/defaultDemo/bitcoinTracker.js:27-29 | one entry appended keeps the history within 300 |
| BitcoinTracker.TrimMultiAppendExceeds | behaviors/defaultDemo/bitcoinTracker.js:27-29 | two entries appended to a full history leave 301 |
| BitcoinTracker.TrimSentinel | behaviors/defaultDemo/bitcoinTracker.js:3-28 | the sentinel alone is dropped by the trim |
| BitcoinTracker.NewerMembers | behaviors/defaultDemo/bitcoinTracker.js:21 | a price is kept exactly when it is more than 25000 ms newer |
| BitcoinTracker.NewerAppend | behaviors/defaultDemo/bitcoinTracker.js:21 | the filter keeps the input order |
| BitcoinTracker.BarGraphActor.constructor | behaviors/defaultDemo/bitcoinTracker.js:148-157 | a bar graph starts with its card data and nothing said |
| BitcoinTracker.BarGraphActor.Setup | behaviors/defaultDemo/bitcoinTracker.js:149-157 | missing values become an empty window of 20 bars of height 0.5; present values leave the card data as it was |
| BitcoinTracker.BarGraphActor.UpdateBars | behaviors/defaultDemo/bitcoinTracker.js:171-181 | the value is pushed and the oldest dropped when over `length`; `updateGraph` is said unless `notSay`; missing values throw |
| BitcoinTracker.BarGraphActor.InitBars | behaviors/defaultDemo/bitcoinTracker.js:183-186 | every value is pushed in order as by `updateBars(v, true)`, then one `updateGraph` |
| BitcoinTracker.WindowBounded | behaviors/defaultDemo/bitcoinTracker.js:173-176 | a window within `length` stays within it and ends with the new value |
| BitcoinTracker.SlideKeepsLatest | behaviors/defaultDemo/bitcoinTracker.js:184 | after a run of updates the window is the latest `length` of all values, in order |

## Left out

- The actor manager, `model.service(...)` and the actors' classes are not modelled. `save` takes the actor list directly, with each actor reduced to its id, its parent's id, `isCard`, `_noSave`, its constructor's name, its other `_`-fields and `_shapeOptions`. `Cards.WellFormed` says that the other fields do not repeat `_noSave`, `_shapeOptions` or `_parent`, and `save` is given only such actors.
- Constructor identity is compared by class name (`card.constructor !== this.defaultClass`).
- `intrinsicProperties` is a parameter. src/DCard.js is not part of this model.
- Saver.IntrinsicsGet, Saver.CardDataGet: these assume `className` is not itself an intrinsic property name.
- Saver.WorldSaver.Save: an intrinsic property named `shapeOptions` is read as absent, because `_shapeOptions` is kept as a property list rather than as a value; its options are still copied one by one. The other `_`-fields, `_noSave` included, are read as they are.
- `this.map` is keyed by the actor's id. The actors handed to `save` have distinct ids, so this loses nothing.
- Saver.WorldSaver.CollectOne: the record's short-lived `{id}` state before `obj.data` is set is not a separate step, since nothing reads it in between.
- Saver.WorldSaver.NewId: its contract gives the id as `IdText(id)`. What the text is (digits of the counter, four wide, one per value) is stated by `Decimal.IdTextValue`, `Decimal.IdTextWidth` and `Decimal.IdTextInjective`.
- Saver.WorldSaver.CollectData: its contract gives the new objects as `AddRecords(...)`. That nothing older changes and every record is present is stated by `Saver.AddRecordsFresh` and `Saver.AddRecordsHold`.
- TopoSort.SortParentsFirst, TopoSort.CycleThrows, TopoSort.MissingParentThrows: these assume distinct card ids. `save` provides this, because the actor manager keys actors by id.
- A `_parent` that is not itself a card is treated as missing from the sort. Its id is never a key of `result`.
- Numbers are integers. `NaN` and the infinities are separate values, and floating point is not modelled. Prices, dates and amounts are integers. The bar height is a `real`.
- KeyOrder: `sort()` compares UTF-16 code units. The model compares characters, which agree below U+10000. JavaScript's listing of integer-like keys first in `Object.keys` is not modelled; the keys are sorted anyway, so only the order the sort receives them in differs, and `KeyOrder.SortIgnoresOrder` shows that order does not matter.
- Arrays are values, not heap objects. An array that contains itself (which makes the source recurse without end) cannot be expressed.
- Getters, symbols, prototypes, `toJSON` and the other `JSON.stringify` hooks are not modelled. Neither are values other than those of `JsValue.Val`.
- The decoder starts from the JSON tree. The `JSON.parse` text parser is not part of this model. Strings are written with `JSON.stringify`'s escapes, but only `Json.EscapePlain` is proved about them.
- Codec: the `Map` replacement object is written in place of the `Map`. The `Map` stays in `seen`, as in the source.
- The event subscriptions (`scriptListen`, `scriptSubscribe`) and the pawns are not modelled. Published events are appended to a `said` log instead of being delivered.
- The bar graph's `length()`, `height()` and `values()` getters are modelled as functions. They have no contract of their own.
- BitcoinTracker.TrackerActor.OnBitcoinHistory: the `newer.map(...)` of an empty filter result is announced as an empty `value-init`, as in the source.
