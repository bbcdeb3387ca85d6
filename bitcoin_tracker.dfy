/**
 * The actor side of the bitcoin demo (behaviors/defaultDemo/bitcoinTracker.js): the tracker
 * keeps a price history, the bar graph a sliding window of the latest values. Dates are in
 * milliseconds and amounts are integers here; the events published with `say`/`sayDeck`
 * are appended to a log.
 */
module BitcoinTracker {
  import opened Wrappers

  /** One price reading `{date, amount}`. */
  datatype Entry = Entry(date: int, amount: int)

  /** The error JavaScript raises when a property of `undefined` is read. */
  datatype Fault = TypeError

  /** How a handler ended: it returned, or it threw. */
  datatype Outcome = Returned | Threw(fault: Fault)

  /** An event published to the card's listeners. */
  datatype Event = ValueChanged(amount: int) | ValueInit(amounts: seq<int>) | UpdateGraph

  /** The most entries `addEntries` keeps after a single append. */
  const MaxHistory := 300

  /** A live reading closer than this to the latest entry is dropped. */
  const MinGap := 1000

  /** A historic price must be this much newer than the latest entry to be kept. */
  const HistoryGap := 25000

  /** The placeholder history installed by `setup`. */
  const Sentinel := Entry(0, 0)

  // ----- The tracker's history -----

  /**
   * What `addEntries` leaves after the push: the first entry is dropped when its date is 0,
   * then one more when over `MaxHistory` entries remain.
   */
  function Trim(h: seq<Entry>): seq<Entry>
    requires h != []
  {
    var rest := if h[0].date == 0 then h[1..] else h;
    if |rest| > MaxHistory then rest[1..] else rest
  }

  /** Trimming drops at most two entries from the front and keeps the rest in order. */
  lemma TrimSuffix(h: seq<Entry>)
    requires h != []
    ensures |h| - 2 <= |Trim(h)| <= |h|
    ensures Trim(h) == h[|h| - |Trim(h)|..]
  {
    var rest := if h[0].date == 0 then h[1..] else h;
    if |rest| > MaxHistory {
      assert rest[1..] == h[|h| - |rest| + 1..];
    } else {
      assert rest == h[|h| - |rest|..];
    }
  }

  /** A single entry appended to a non-empty history becomes its last entry. */
  lemma TrimAppendLast(h: seq<Entry>, e: Entry)
    requires h != []
    ensures Trim(h + [e]) != [] && Trim(h + [e])[|Trim(h + [e])| - 1] == e
  {
    var s := h + [e];
    TrimSuffix(s);
    var t := Trim(s);
    assert |t| >= 1 by {
      var rest := if s[0].date == 0 then s[1..] else s;
      assert |rest| >= |s| - 1 >= 1;
    }
    assert t[|t| - 1] == s[|s| - |t|..][|t| - 1] == s[|s| - 1];
  }

  /** A single entry appended to a history of at most `MaxHistory` entries keeps it within `MaxHistory`. */
  lemma TrimAppendOne(h: seq<Entry>, e: Entry)
    requires |h| <= MaxHistory
    ensures |Trim(h + [e])| <= MaxHistory
  {
  }

  /** Several entries appended at once can leave more than `MaxHistory` entries. */
  lemma TrimMultiAppendExceeds(h: seq<Entry>, a: Entry, b: Entry)
    requires |h| == MaxHistory && h[0].date != 0
    ensures |Trim(h + [a, b])| == MaxHistory + 1
  {
    assert (h + [a, b])[0] == h[0];
  }

  /** `addEntries()` with no arguments on the sentinel-only history empties it. */
  lemma TrimSentinel()
    ensures Trim([Sentinel]) == []
  {
  }

  /** The prices `onBitcoinHistory` keeps: those more than `HistoryGap` after `since`, in order. */
  function Newer(prices: seq<Entry>, since: int): seq<Entry> {
    if prices == [] then []
    else
      var p := prices[|prices| - 1];
      Newer(prices[..|prices| - 1], since) + (if p.date - since > HistoryGap then [p] else [])
  }

  /** A price is kept exactly when it is in the input and far enough after `since`. */
  lemma {:induction false} NewerMembers(prices: seq<Entry>, since: int, p: Entry)
    ensures p in Newer(prices, since) <==> p in prices && p.date - since > HistoryGap
  {
    if prices != [] {
      var prefix := prices[..|prices| - 1];
      NewerMembers(prefix, since, p);
      assert prices == prefix + [prices[|prices| - 1]];
    }
  }

  /** The filter keeps the input order: filtering a concatenation filters each part. */
  lemma {:induction false} NewerAppend(a: seq<Entry>, b: seq<Entry>, since: int)
    ensures Newer(a + b, since) == Newer(a, since) + Newer(b, since)
    decreases |b|
  {
    if b == [] {
      assert a + b == a;
    } else {
      var prefix := b[..|b| - 1];
      NewerAppend(a, prefix, since);
      assert (a + b)[..|a + b| - 1] == a + prefix;
    }
  }

  /** `newer.map(v => v.amount)`. */
  function Amounts(entries: seq<Entry>): (r: seq<int>)
    ensures |r| == |entries| && forall i :: 0 <= i < |entries| ==> r[i] == entries[i].amount
  {
    seq(|entries|, i requires 0 <= i < |entries| => entries[i].amount)
  }

  /** `BitcoinTrackerActor`: the price history, absent until `setup`, and the events it announced. */
  class TrackerActor {
    var history: Option<seq<Entry>>
    var said: seq<Event>

    /** A tracker card created with the history its card data carries, if any. */
    constructor(history: Option<seq<Entry>>)
      ensures this.history == history && said == []
    {
      this.history := history;
      said := [];
    }

    /** Installs the sentinel history when there is none; an existing history is kept. */
    method Setup()
      modifies this
      ensures history == if old(history).None? then Some([Sentinel]) else old(history)
      ensures said == old(said)
    {
      if history.None? {
        history := Some([Sentinel]);
      }
    }

    /**
     * `latest()`: the last entry; `undefined` (`None`) when the history is empty, and a
     * `TypeError` when there is no history.
     */
    function Latest(): (r: Result<Option<Entry>, Fault>)
      reads this
      ensures r.Ok? <==> history.Some?
      ensures r.Ok? ==> (r.value.None? <==> history.value == [])
      ensures r.Ok? && r.value.Some? ==> r.value.value == history.value[|history.value| - 1]
    {
      if history.None? then Err(TypeError)
      else if history.value == [] then Ok(None)
      else Ok(Some(history.value[|history.value| - 1]))
    }

    /**
     * `addEntries(...data)`: pushes `data`, then trims. Pushing onto a missing history, or
     * reading the first date of an empty one, throws.
     */
    method AddEntries(data: seq<Entry>) returns (r: Outcome)
      modifies this
      ensures said == old(said)
      ensures old(history).None? ==> r == Threw(TypeError) && history == old(history)
      ensures old(history).Some? && old(history).value + data == [] ==>
        r == Threw(TypeError) && history == old(history)
      ensures old(history).Some? && old(history).value + data != [] ==>
        r == Returned && history == Some(Trim(old(history).value + data))
    {
      if history.None? {
        return Threw(TypeError);
      }
      var h := history.value + data;
      history := Some(h);
      if h == [] {
        return Threw(TypeError);
      }
      if h[0].date == 0 {
        h := h[1..];
        history := Some(h);
      }
      if |h| > MaxHistory {
        h := h[1..];
        history := Some(h);
      }
      r := Returned;
    }

    /**
     * `onBitcoinData({date, amount})`: a reading less than `MinGap` after the latest entry is
     * ignored; otherwise it is appended, becomes the latest entry, and its amount is announced.
     * With no latest entry the date lookup throws.
     */
    method OnBitcoinData(e: Entry) returns (r: Outcome)
      modifies this
      ensures old(Latest()).Err? || old(Latest()).value.None? ==>
        r == Threw(TypeError) && history == old(history) && said == old(said)
      ensures old(Latest()).Ok? && old(Latest()).value.Some? && e.date - old(Latest()).value.value.date < MinGap ==>
        r == Returned && history == old(history) && said == old(said)
      ensures old(Latest()).Ok? && old(Latest()).value.Some? && e.date - old(Latest()).value.value.date >= MinGap ==>
        && r == Returned
        && history == Some(Trim(old(history).value + [e]))
        && Latest() == Ok(Some(e))
        && (|old(history).value| <= MaxHistory ==> |history.value| <= MaxHistory)
        && said == old(said) + [ValueChanged(e.amount)]
    {
      var latest := Latest();
      if latest.Err? || latest.value.None? {
        return Threw(TypeError);
      }
      if e.date - latest.value.value.date < MinGap {
        return Returned;
      }
      ghost var before := history.value;
      r := AddEntries([e]);
      TrimAppendLast(before, e);
      if |before| <= MaxHistory {
        TrimAppendOne(before, e);
      }
      said := said + [ValueChanged(e.amount)];
    }

    /**
     * `onBitcoinHistory(prices)`: appends, in input order, the prices more than `HistoryGap`
     * after the latest entry and announces their amounts. The latest entry is looked up only
     * when there are prices to filter; the append itself throws on a missing or empty history.
     */
    method OnBitcoinHistory(prices: seq<Entry>) returns (r: Outcome)
      modifies this
      ensures prices != [] && (old(Latest()).Err? || old(Latest()).value.None?) ==>
        r == Threw(TypeError) && history == old(history) && said == old(said)
      ensures prices == [] && (old(history).None? || old(history).value == []) ==>
        r == Threw(TypeError) && history == old(history) && said == old(said)
      ensures old(history).Some? && old(history).value != [] ==>
        var newer := if prices == [] then [] else Newer(prices, old(Latest()).value.value.date);
        && r == Returned
        && history == Some(Trim(old(history).value + newer))
        && said == old(said) + [ValueInit(Amounts(newer))]
    {
      var newer: seq<Entry> := [];
      if prices != [] {
        var latest := Latest();
        if latest.Err? || latest.value.None? {
          return Threw(TypeError);
        }
        newer := Newer(prices, latest.value.value.date);
      }
      r := AddEntries(newer);
      if r.Threw? {
        return;
      }
      said := said + [ValueInit(Amounts(newer))];
    }
  }

  // ----- The bar graph's window -----

  /** One `updateBars` on the values: push, then drop the oldest when over `len`. */
  function Window(s: seq<int>, v: int, len: int): seq<int> {
    var pushed := s + [v];
    if |pushed| > len then pushed[1..] else pushed
  }

  /** `values.forEach(v => updateBars(v, true))` on the window `s`. */
  function Slide(s: seq<int>, vs: seq<int>, len: int): seq<int> {
    if vs == [] then s
    else Window(Slide(s, vs[..|vs| - 1], len), vs[|vs| - 1], len)
  }

  /** A window of at most `len` values stays within `len`, and a positive window ends with the new value. */
  lemma WindowBounded(s: seq<int>, v: int, len: int)
    requires |s| <= len
    ensures |Window(s, v, len)| <= len
    ensures len >= 1 ==> Window(s, v, len)[|Window(s, v, len)| - 1] == v
  {
  }

  /** The number of values a window of `len` keeps out of `n`. */
  function Kept(n: nat, len: nat): nat {
    if n <= len then n else len
  }

  /**
   * Starting from a window within `len`, the values after a run of updates are the latest
   * `len` of the old values followed by the new ones.
   */
  lemma {:induction false} SlideKeepsLatest(s: seq<int>, vs: seq<int>, len: nat)
    requires |s| <= len
    ensures var all := s + vs;
      Slide(s, vs, len) == all[|all| - Kept(|all|, len)..]
  {
    if vs != [] {
      var prefix := vs[..|vs| - 1];
      var v := vs[|vs| - 1];
      SlideKeepsLatest(s, prefix, len);
      var before := s + prefix;
      var all := s + vs;
      assert all == before + [v];
      var w := before[|before| - Kept(|before|, len)..];
      assert w + [v] == all[|all| - Kept(|before|, len) - 1..];
    }
  }

  /** `BarGraphActor`: its card data's `values`, `length` and `height`, and the events it said. */
  class BarGraphActor {
    var values: Option<seq<int>>
    var length: int
    var height: real
    var said: seq<Event>

    /** A bar graph card created with the card data it carries. */
    constructor(values: Option<seq<int>>, length: int, height: real)
      ensures this.values == values && this.length == length && this.height == height && said == []
    {
      this.values := values;
      this.length := length;
      this.height := height;
      said := [];
    }

    function Length(): int
      reads this
    {
      length
    }

    function Height(): real
      reads this
    {
      height
    }

    function Values(): Option<seq<int>>
      reads this
    {
      values
    }

    /** When the card data has no `values`, installs an empty window of 20 bars of height 0.5. */
    method Setup()
      modifies this
      ensures old(values).None? ==> Values() == Some([]) && Length() == 20 && Height() == 0.5
      ensures old(values).Some? ==> values == old(values) && length == old(length) && height == old(height)
      ensures said == old(said)
    {
      if values.None? {
        values := Some([]);
        length := 20;
        height := 0.5;
      }
    }

    /**
     * `updateBars(value, notSay)`: the value becomes the newest of the window, the oldest goes
     * when the window is over `length`; `updateGraph` is said unless `notSay`. Pushing onto
     * missing values throws.
     */
    method UpdateBars(value: int, notSay: bool) returns (r: Outcome)
      modifies this
      ensures length == old(length) && height == old(height)
      ensures old(values).None? ==> r == Threw(TypeError) && values == old(values) && said == old(said)
      ensures old(values).Some? ==>
        && r == Returned
        && values == Some(Window(old(values).value, value, length))
        && said == old(said) + (if notSay then [] else [UpdateGraph])
    {
      if values.None? {
        return Threw(TypeError);
      }
      var vs := values.value + [value];
      if |vs| > Length() {
        vs := vs[1..];
      }
      values := Some(vs);
      if !notSay {
        said := said + [UpdateGraph];
      }
      r := Returned;
    }

    /**
     * `initBars(values)`: the same as `updateBars(v, true)` for each value in order, then one
     * `updateGraph`. The first update throws when the card data has no values.
     */
    method InitBars(vs: seq<int>) returns (r: Outcome)
      modifies this
      ensures length == old(length) && height == old(height)
      ensures old(values).None? && vs != [] ==>
        r == Threw(TypeError) && values == old(values) && said == old(said)
      ensures old(values).Some? ==>
        r == Returned && values == Some(Slide(old(values).value, vs, length)) && said == old(said) + [UpdateGraph]
      ensures old(values).None? && vs == [] ==>
        r == Returned && values == old(values) && said == old(said) + [UpdateGraph]
    {
      for i := 0 to |vs|
        invariant length == old(length) && height == old(height) && said == old(said)
        invariant old(values).None? ==> values == old(values) && i == 0
        invariant old(values).Some? ==> values == Some(Slide(old(values).value, vs[..i], length))
      {
        r := UpdateBars(vs[i], true);
        if r.Threw? {
          return;
        }
        assert vs[..i + 1][..i] == vs[..i];
      }
      assert vs[..|vs|] == vs;
      said := said + [UpdateGraph];
      r := Returned;
    }
  }
}
