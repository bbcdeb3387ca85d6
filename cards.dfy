/**
 * The actors `WorldSaver.save` sees (src/worldSaver.js:19-29). The actor manager holds its
 * actors in a `Map` keyed by id, so the sequence handed to the saver lists each id once; a
 * card's `_parent` is another actor, named here by that actor's id.
 */
module Cards {
  import opened Wrappers
  import opened JsValue

  /**
   * An actor: its id, the id of its `_parent` (when it has one), the `isCard` and `_noSave`
   * flags, the name of its constructor, its other `_`-prefixed fields (by name, without the
   * underscore) and its `_shapeOptions` object, if any.
   */
  datatype Card = Card(
    id: string,
    parent: Option<string>,
    isCard: bool,
    noSave: Val,
    ctor: string,
    fields: seq<Prop<Val>>,
    shapeOptions: Option<seq<Prop<Val>>>)

  /**
   * Each `_`-field is held in one place: `fields` has no entry for the fields kept apart,
   * `_noSave`, `_shapeOptions` and `_parent`.
   */
  predicate WellFormed(c: Card) {
    Get(c.fields, "noSave").None? && Get(c.fields, "shapeOptions").None? && Get(c.fields, "parent").None?
  }

  /** No two actors share an id. */
  predicate DistinctIds(cards: seq<Card>) {
    forall i, j :: 0 <= i < j < |cards| ==> cards[i].id != cards[j].id
  }

  /** `actor.isCard && !actor._noSave` (src/worldSaver.js:22). */
  predicate Savable(c: Card) {
    c.isCard && !Truthy(c.noSave)
  }

  /** The cards `save` hands to the sort, in the actor manager's order. */
  function Savables(actors: seq<Card>): (r: seq<Card>)
    ensures |r| <= |actors|
  {
    if actors == [] then []
    else
      var prev := Savables(actors[..|actors| - 1]);
      var a := actors[|actors| - 1];
      if Savable(a) then prev + [a] else prev
  }

  /** An actor is passed on exactly when it is in the input and savable. */
  lemma {:induction false} SavablesMembers(actors: seq<Card>, c: Card)
    ensures c in Savables(actors) <==> c in actors && Savable(c)
  {
    if actors != [] {
      var prefix := actors[..|actors| - 1];
      SavablesMembers(prefix, c);
      assert actors == prefix + [actors[|actors| - 1]];
    }
  }

  /** The filter keeps the input order: filtering a concatenation filters each part. */
  lemma {:induction false} SavablesAppend(a: seq<Card>, b: seq<Card>)
    ensures Savables(a + b) == Savables(a) + Savables(b)
    decreases |b|
  {
    if b != [] {
      var prefix := b[..|b| - 1];
      SavablesAppend(a, prefix);
      assert (a + b)[..|a + b| - 1] == a + prefix;
    } else {
      assert a + b == a;
    }
  }

  /** Filtering keeps distinct ids distinct. */
  lemma {:induction false} SavablesDistinct(actors: seq<Card>)
    requires DistinctIds(actors)
    ensures DistinctIds(Savables(actors))
  {
    if actors != [] {
      var prefix := actors[..|actors| - 1];
      SavablesDistinct(prefix);
      var a := actors[|actors| - 1];
      forall c | c in Savables(prefix) ensures c.id != a.id {
        SavablesMembers(prefix, c);
      }
    }
  }
}
