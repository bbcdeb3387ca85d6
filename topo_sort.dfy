/**
 * `WorldSaver.topologicalSort` (src/worldSaver.js:31-49): a queue of cards is drained front
 * to back; a card whose parent is absent, or whose parent's id is already in `result`, is
 * placed; any other card goes to the back of the queue once, and a card that comes round a
 * second time without its parent placed makes the sort throw.
 */
module TopoSort {
  import opened Wrappers
  import opened JsValue
  import opened Cards

  /** The `Error("actors make a cycle")` the sort throws. */
  datatype SortError = ActorsMakeACycle

  /** The cards in input order, each named by its position (the actor object itself). */
  function Indices(n: nat): (r: seq<nat>)
    ensures |r| == n && forall i :: 0 <= i < n ==> r[i] == i
  {
    seq(n, i requires 0 <= i < n => i)
  }

  function IndexSet(n: nat): set<nat> {
    set i | i in Indices(n)
  }

  /** The cards held by the `result` map, in its insertion order. */
  function Values<V>(props: seq<Prop<V>>): (r: seq<V>)
    ensures |r| == |props| && forall i :: 0 <= i < |props| ==> r[i] == props[i].value
  {
    seq(|props|, i requires 0 <= i < |props| => props[i].value)
  }

  /** Line 38: the card at `n` has no parent, or its parent's id is already a key of `result`. */
  predicate Placeable(cards: seq<Card>, n: nat, result: seq<Prop<nat>>)
    requires n < |cards|
  {
    cards[n].parent.None? || Get(result, cards[n].parent.value).Some?
  }

  /**
   * The sort from a given state: the queue `queue`, the map `result` from card id to card,
   * and the set `checked` of cards already sent round once.
   */
  function Linearize(cards: seq<Card>, queue: seq<nat>, result: seq<Prop<nat>>, checked: set<nat>)
    : Result<seq<Prop<nat>>, SortError>
    requires forall i :: 0 <= i < |queue| ==> queue[i] < |cards|
    decreases IndexSet(|cards|) - checked, |queue|
  {
    if queue == [] then Ok(result)
    else
      var n := queue[0];
      if Placeable(cards, n, result) then Linearize(cards, queue[1..], Set(result, cards[n].id, n), checked)
      else if n in checked then Err(ActorsMakeACycle)
      else
        assert Indices(|cards|)[n] == n;
        Linearize(cards, queue[1..] + [n], result, checked + {n})
  }

  /** `topologicalSort(cards)`: the ordered map from card id to card. */
  function Sort(cards: seq<Card>): Result<seq<Prop<nat>>, SortError> {
    Linearize(cards, Indices(|cards|), [], {})
  }

  lemma {:induction false} IndicesCount(n: nat)
    ensures |IndexSet(n)| == n
  {
    if n > 0 {
      var m := n - 1;
      IndicesCount(m);
      assert Indices(n) == Indices(m) + [m];
      assert IndexSet(n) == IndexSet(m) + {m};
    }
  }

  /** Sending one more card round leaves one fewer card unchecked. */
  lemma SendRound(n: nat, checked: set<nat>, all: set<nat>)
    requires n in all && n !in checked
    ensures all - (checked + {n}) < all - checked
    ensures |all - (checked + {n})| == |all - checked| - 1
  {
    assert all - checked == (all - (checked + {n})) + {n};
  }

  /** Every position below `k` is one of the `k` cards. */
  lemma InIndexSet(n: nat, k: nat)
    requires n < k
    ensures n in IndexSet(k)
  {
    assert Indices(k)[n] == n;
  }

  /**
   * The loop of src/worldSaver.js:36-47. It returns what `Sort` specifies, and the ghost
   * `dequeues` counts the `shift`s: each card is sent round at most once, so there are at
   * most two per card.
   */
  method TopologicalSort(cards: seq<Card>) returns (r: Result<seq<Prop<nat>>, SortError>, ghost dequeues: nat)
    ensures r == Sort(cards)
    ensures dequeues <= 2 * |cards|
  {
    var result: seq<Prop<nat>> := [];
    var toSort: seq<nat> := Indices(|cards|);
    var checked: set<nat> := {};
    dequeues := 0;
    IndicesCount(|cards|);
    assert IndexSet(|cards|) - checked == IndexSet(|cards|);
    while |toSort| > 0
      invariant forall i :: 0 <= i < |toSort| ==> toSort[i] < |cards|
      invariant checked <= IndexSet(|cards|)
      invariant Linearize(cards, toSort, result, checked) == Sort(cards)
      invariant dequeues + |toSort| + |IndexSet(|cards|) - checked| == 2 * |cards|
      decreases IndexSet(|cards|) - checked, |toSort|
    {
      var n := toSort[0];
      toSort := toSort[1..];
      dequeues := dequeues + 1;
      if cards[n].parent.None? || Get(result, cards[n].parent.value).Some? {
        result := Set(result, cards[n].id, n);
      } else {
        if n in checked {
          return Err(ActorsMakeACycle), dequeues;
        }
        InIndexSet(n, |cards|);
        SendRound(n, checked, IndexSet(|cards|));
        toSort := toSort + [n];
        checked := checked + {n};
      }
    }
    r := Ok(result);
  }

  // ----- What a successful sort guarantees -----

  /** Every entry of `result` names one of the cards. */
  predicate InRange(cards: seq<Card>, result: seq<Prop<nat>>) {
    forall i :: 0 <= i < |result| ==> result[i].value < |cards|
  }

  lemma {:induction false} LinearizeInRange(cards: seq<Card>, queue: seq<nat>, result: seq<Prop<nat>>, checked: set<nat>)
    requires forall i :: 0 <= i < |queue| ==> queue[i] < |cards|
    requires InRange(cards, result)
    ensures var r := Linearize(cards, queue, result, checked);
      r.Ok? ==> InRange(cards, r.value)
    decreases IndexSet(|cards|) - checked, |queue|
  {
    if queue != [] {
      var n := queue[0];
      if Placeable(cards, n, result) {
        var next := Set(result, cards[n].id, n);
        SetFrom(result, cards[n].id, n);
        forall i | 0 <= i < |next| ensures next[i].value < |cards| {
          assert next[i] in next;
        }
        LinearizeInRange(cards, queue[1..], next, checked);
      } else if n !in checked {
        assert Indices(|cards|)[n] == n;
        LinearizeInRange(cards, queue[1..] + [n], result, checked + {n});
      }
    }
  }

  /** Whatever the ids, a sort that returns maps ids to cards of the input only. */
  lemma SortInRange(cards: seq<Card>)
    ensures Sort(cards).Ok? ==> InRange(cards, Sort(cards).value)
  {
    LinearizeInRange(cards, Indices(|cards|), [], {});
  }

  /** Every entry is keyed by its own card's id, and every parent is placed before its child. */
  predicate ParentsFirst(cards: seq<Card>, result: seq<Prop<nat>>) {
    && (forall i :: 0 <= i < |result| ==> result[i].value < |cards| && cards[result[i].value].id == result[i].key)
    && forall i :: 0 <= i < |result| && result[i].value < |cards| && cards[result[i].value].parent.Some? ==>
         exists j :: 0 <= j < i && result[j].key == cards[result[i].value].parent.value
  }

  /** The state the loop keeps: the queue and the placed cards together are all the cards, once each. */
  predicate SortState(cards: seq<Card>, queue: seq<nat>, result: seq<Prop<nat>>) {
    && DistinctIds(cards)
    && ParentsFirst(cards, result)
    && multiset(queue) + multiset(Values(result)) == multiset(Indices(|cards|))
  }

  lemma ValuesSnoc<V>(props: seq<Prop<V>>, p: Prop<V>)
    ensures Values(props + [p]) == Values(props) + [p.value]
  {
  }

  /** A card still in the queue is not yet placed, so its id is not yet a key. */
  lemma FreshId(cards: seq<Card>, queue: seq<nat>, result: seq<Prop<nat>>)
    requires SortState(cards, queue, result) && queue != [] && queue[0] < |cards|
    ensures forall i :: 0 <= i < |result| ==> result[i].key != cards[queue[0]].id
  {
    var n := queue[0];
    var all := multiset(Indices(|cards|));
    assert Indices(|cards|)[n] == n;
    forall i | 0 <= i < |result| ensures result[i].key != cards[n].id {
      var m := result[i].value;
      assert m in Values(result);
      if m == n {
        assert all[n] >= multiset(queue)[n] + multiset(Values(result))[n] >= 2;
        assert all[n] == 1 by {
          DistinctIndices(|cards|, n);
        }
      }
    }
  }

  lemma {:induction false} DistinctIndices(len: nat, n: nat)
    requires n < len
    ensures multiset(Indices(len))[n] == 1
  {
    if len > 0 {
      assert Indices(len) == Indices(len - 1) + [len - 1];
      if n < len - 1 {
        DistinctIndices(len - 1, n);
        assert len - 1 !in Indices(len - 1) || true;
      } else {
        assert n !in Indices(len - 1);
      }
    }
  }

  /** Placing the card at the front of the queue keeps `SortState`; it is appended to `result`. */
  lemma PlaceKeeps(cards: seq<Card>, queue: seq<nat>, result: seq<Prop<nat>>)
    requires SortState(cards, queue, result) && queue != [] && queue[0] < |cards|
    requires Placeable(cards, queue[0], result)
    ensures var n := queue[0];
      && Set(result, cards[n].id, n) == result + [Prop(cards[n].id, n)]
      && SortState(cards, queue[1..], result + [Prop(cards[n].id, n)])
  {
    var n := queue[0];
    assert queue == [n] + queue[1..];
    FreshId(cards, queue, result);
    var p := Prop(cards[n].id, n);
    ValuesSnoc(result, p);
    var r' := result + [p];
    forall i | 0 <= i < |r'| && r'[i].value < |cards| && cards[r'[i].value].parent.Some?
      ensures exists j :: 0 <= j < i && r'[j].key == cards[r'[i].value].parent.value
    {
      if i < |result| {
        var j :| 0 <= j < i && result[j].key == cards[result[i].value].parent.value;
        assert r'[j] == result[j];
      } else {
        var j :| 0 <= j < |result| && result[j].key == cards[n].parent.value;
        assert r'[j] == result[j];
      }
    }
  }

  /** A sort that returns keeps `SortState`, so at the end every card is placed once, parents first. */
  lemma {:induction false} LinearizeKeeps(cards: seq<Card>, queue: seq<nat>, result: seq<Prop<nat>>, checked: set<nat>)
    requires forall i :: 0 <= i < |queue| ==> queue[i] < |cards|
    requires SortState(cards, queue, result)
    ensures var r := Linearize(cards, queue, result, checked);
      r.Ok? ==> SortState(cards, [], r.value)
    decreases IndexSet(|cards|) - checked, |queue|
  {
    if queue != [] {
      var n := queue[0];
      if Placeable(cards, n, result) {
        PlaceKeeps(cards, queue, result);
        LinearizeKeeps(cards, queue[1..], result + [Prop(cards[n].id, n)], checked);
      } else if n !in checked {
        assert Indices(|cards|)[n] == n;
        assert queue == [n] + queue[1..];
        assert multiset(queue[1..] + [n]) == multiset(queue);
        LinearizeKeeps(cards, queue[1..] + [n], result, checked + {n});
      }
    }
  }

  /**
   * When the sort returns, every card is in the result exactly once, keyed by its id, and
   * each card with a parent comes after its parent's entry.
   */
  lemma SortParentsFirst(cards: seq<Card>)
    requires DistinctIds(cards)
    ensures var r := Sort(cards);
      r.Ok? ==>
        && ParentsFirst(cards, r.value)
        && multiset(Values(r.value)) == multiset(Indices(|cards|))
  {
    assert Values<nat>([]) == [];
    LinearizeKeeps(cards, Indices(|cards|), [], {});
  }

  /** A card listed before an element of `s` is never one whose entry comes first in `result`. */
  lemma {:induction false} NoFirstInSet(cards: seq<Card>, result: seq<Prop<nat>>, s: set<nat>, k: nat)
    requires ParentsFirst(cards, result)
    requires forall i :: i in s ==>
      (i < |cards| && cards[i].parent.Some? &&
       forall j :: 0 <= j < |cards| && cards[j].id == cards[i].parent.value ==> j in s)
    requires k < |result|
    ensures result[k].value !in s
    decreases k
  {
    var v := result[k].value;
    if v in s {
      var j :| 0 <= j < k && result[j].key == cards[v].parent.value;
      NoFirstInSet(cards, result, s, j);
    }
  }

  /** A placed card's entry, found through the multiset of placed cards. */
  lemma EntryOf(cards: seq<Card>, result: seq<Prop<nat>>, i: nat) returns (k: nat)
    requires multiset(Values(result)) == multiset(Indices(|cards|)) && i < |cards|
    ensures k < |result| && result[k].value == i
  {
    assert Indices(|cards|)[i] == i;
    assert i in multiset(Values(result));
    k :| 0 <= k < |result| && Values(result)[k] == i;
  }

  /**
   * A set of cards each of whose parents is a card of the same set (a parent cycle, or a
   * chain hanging from one) makes the sort throw.
   */
  lemma CycleThrows(cards: seq<Card>, s: set<nat>)
    requires DistinctIds(cards) && s != {}
    requires forall i :: i in s ==>
      (i < |cards| && cards[i].parent.Some? &&
       forall j :: 0 <= j < |cards| && cards[j].id == cards[i].parent.value ==> j in s)
    ensures Sort(cards).Err?
  {
    SortParentsFirst(cards);
    var r := Sort(cards);
    if r.Ok? {
      var i :| i in s;
      var k := EntryOf(cards, r.value, i);
      NoFirstInSet(cards, r.value, s, k);
    }
  }

  /** A card whose parent is not among the cards makes the sort throw. */
  lemma MissingParentThrows(cards: seq<Card>, i: nat)
    requires DistinctIds(cards) && i < |cards| && cards[i].parent.Some?
    requires forall j :: 0 <= j < |cards| ==> cards[j].id != cards[i].parent.value
    ensures Sort(cards).Err?
  {
    SortParentsFirst(cards);
    var r := Sort(cards);
    if r.Ok? {
      var k := EntryOf(cards, r.value, i);
    }
  }

  // ----- Input already in parent-first order -----

  /** Each card's parent is listed before it. */
  predicate ParentFirstInput(cards: seq<Card>) {
    forall i :: 0 <= i < |cards| && cards[i].parent.Some? ==>
      exists j :: 0 <= j < i && cards[j].id == cards[i].parent.value
  }

  /** The map from card id to card in input order. */
  function InputOrder(cards: seq<Card>): (r: seq<Prop<nat>>)
    ensures |r| == |cards| && forall i :: 0 <= i < |cards| ==> r[i] == Prop(cards[i].id, i)
  {
    seq(|cards|, i requires 0 <= i < |cards| => Prop(cards[i].id, i))
  }

  /** With parents listed first, the card at `k` can be placed after the first `k`, and is appended. */
  lemma InputOrderStep(cards: seq<Card>, k: nat)
    requires DistinctIds(cards) && ParentFirstInput(cards) && k < |cards|
    ensures Placeable(cards, k, InputOrder(cards)[..k])
    ensures Set(InputOrder(cards)[..k], cards[k].id, k) == InputOrder(cards)[..k + 1]
  {
    var prefix := InputOrder(cards)[..k];
    if cards[k].parent.Some? {
      var j :| 0 <= j < k && cards[j].id == cards[k].parent.value;
      assert prefix[j].key == cards[k].parent.value;
    }
    forall i | 0 <= i < |prefix| ensures prefix[i].key != cards[k].id {
      assert prefix[i].key == cards[i].id;
    }
    var next := prefix + [Prop(cards[k].id, k)];
    assert next == InputOrder(cards)[..k + 1] by {
      assert forall i: nat :: i <= k ==> next[i] == Prop(cards[i].id, i);
    }
  }

  lemma {:induction false} InputOrderFrom(cards: seq<Card>, k: nat)
    requires DistinctIds(cards) && ParentFirstInput(cards) && k <= |cards|
    ensures forall i :: 0 <= i < |Indices(|cards|)[k..]| ==> Indices(|cards|)[k..][i] < |cards|
    ensures Linearize(cards, Indices(|cards|)[k..], InputOrder(cards)[..k], {}) == Ok(InputOrder(cards))
    decreases |cards| - k
  {
    var all := Indices(|cards|);
    if k < |cards| {
      assert all[k..][0] == k;
      InputOrderStep(cards, k);
      assert all[k..][1..] == all[k + 1..];
      InputOrderFrom(cards, k + 1);
    } else {
      assert InputOrder(cards)[..k] == InputOrder(cards);
    }
  }

  /** When every parent is listed before its children, the sort keeps the input order. */
  lemma ParentFirstKeepsOrder(cards: seq<Card>)
    requires DistinctIds(cards) && ParentFirstInput(cards)
    ensures Sort(cards) == Ok(InputOrder(cards))
  {
    InputOrderFrom(cards, 0);
    assert Indices(|cards|)[0..] == Indices(|cards|);
    assert InputOrder(cards)[..0] == [];
  }

  // ----- A false cycle report -----

  /** A card with just an id and a parent. */
  function Actor(id: string, parent: Option<string>): Card {
    Card(id, parent, true, Undefined, "Card", [], None)
  }

  /**
   * The chain C -> B -> A listed child first throws "actors make a cycle" although it has
   * no cycle: C comes round a second time before B is placed. Listed parent first, it sorts.
   */
  lemma ChildFirstChainThrows()
    ensures Sort([Actor("C", Some("B")), Actor("B", Some("A")), Actor("A", None)]) == Err(ActorsMakeACycle)
    ensures Sort([Actor("A", None), Actor("B", Some("A")), Actor("C", Some("B"))]).Ok?
  {
    var cards := [Actor("C", Some("B")), Actor("B", Some("A")), Actor("A", None)];
    var q0: seq<nat>, q1: seq<nat>, q2: seq<nat>, q3: seq<nat> := [0, 1, 2], [1, 2, 0], [2, 0, 1], [0, 1];
    var none: set<nat> := {};
    assert Indices(3) == q0;
    assert !Placeable(cards, 0, []) && !Placeable(cards, 1, []) && Placeable(cards, 2, []);
    assert !Placeable(cards, 0, [Prop("A", 2)]);
    assert q0[1..] + [0] == q1 && q1[1..] + [1] == q2 && q2[1..] == q3;
    assert none + {0} == {0} && {0} + {1} == {0, 1};
    assert Linearize(cards, q0, [], none) == Linearize(cards, q1, [], {0});
    assert Linearize(cards, q1, [], {0}) == Linearize(cards, q2, [], {0, 1});
    assert Linearize(cards, q2, [], {0, 1}) == Linearize(cards, q3, [Prop("A", 2)], {0, 1});
    var ordered := [Actor("A", None), Actor("B", Some("A")), Actor("C", Some("B"))];
    assert ordered[0].id == "A" && ordered[1].id == "B";
    ParentFirstKeepsOrder(ordered);
  }
}
