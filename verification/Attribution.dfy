/** Latency windows per operation kind and source, within fixed bounds: what finds no room of its own goes to an
    overflow key. */
module Attribution {
  import opened Latency

  const OVERFLOW := "<other>"

  datatype Limits = Limits(kinds: nat, sources: nat)

  datatype Entry = Entry(kind: string, source: string, op: Op)

  /** A table of what went to which window. */
  type Table = map<string, map<string, seq<Op>>>

  // ---- Routing ----

  function BoundedKey(keys: set<string>, requested: string, limit: int): string {
    if requested in keys then requested
    else if requested != OVERFLOW && |keys| < limit - 1 then requested
    else OVERFLOW
  }

  function SourcesOf(t: Table, kind: string): map<string, seq<Op>> {
    if kind in t then t[kind] else map[]
  }

  function OpsOf(sources: map<string, seq<Op>>, source: string): seq<Op> {
    if source in sources then sources[source] else []
  }

  /** Where the next record of a kind and source goes. */
  function Route(t: Table, limits: Limits, kind: string, source: string): (string, string) {
    var k := BoundedKey(t.Keys, kind, limits.kinds);
    (k, BoundedKey(SourcesOf(t, k).Keys, source, limits.sources))
  }

  predicate Contains<W>(windows: map<string, map<string, W>>, key: (string, string)) {
    key.0 in windows && key.1 in windows[key.0]
  }

  /** The table once the window for a key exists. */
  function Opened(t: Table, key: (string, string)): Table {
    if Contains(t, key) then t else t[key.0 := SourcesOf(t, key.0)[key.1 := []]]
  }

  function Appended(t: Table, key: (string, string), op: Op): Table
    requires Contains(t, key)
  {
    t[key.0 := t[key.0][key.1 := t[key.0][key.1] + [op]]]
  }

  function Put(t: Table, limits: Limits, e: Entry): Table {
    var key := Route(t, limits, e.kind, e.source);
    Appended(Opened(t, key), key, e.op)
  }

  function Fill(limits: Limits, entries: seq<Entry>): Table {
    if entries == [] then map[]
    else Put(Fill(limits, entries[..|entries| - 1]), limits, entries[|entries| - 1])
  }

  /** The window that a query reads: that of the kind or else of the overflow kind, and in it that of the source or else
      of the overflow source. */
  function Existing(t: Table, kind: string, source: string): Common.Option<(string, string)> {
    var k := if kind in t then kind else OVERFLOW;
    if k !in t then Common.None
    else if source in t[k] then Common.Some((k, source))
    else if OVERFLOW in t[k] then Common.Some((k, OVERFLOW))
    else Common.None
  }

  // ---- Bounds ----

  /** At most limit keys, one of them for overflow. */
  ghost predicate KeysBounded(keys: set<string>, limit: int) {
    |keys - {OVERFLOW}| <= limit - 1
  }

  lemma KeysBoundedMeaning(keys: set<string>, limit: int)
    requires KeysBounded(keys, limit)
    ensures |keys| <= limit
  {
    if OVERFLOW in keys {
      assert keys == (keys - {OVERFLOW}) + {OVERFLOW};
    } else {
      assert keys == keys - {OVERFLOW};
    }
  }

  lemma KeyStaysBounded(keys: set<string>, requested: string, limit: int)
    requires KeysBounded(keys, limit)
    ensures KeysBounded(keys + {BoundedKey(keys, requested, limit)}, limit)
  {
    var key := BoundedKey(keys, requested, limit);
    var after := keys + {key};
    if key == OVERFLOW || key in keys {
      assert after - {OVERFLOW} == keys - {OVERFLOW};
    } else {
      assert after - {OVERFLOW} == (keys - {OVERFLOW}) + {key};
      Smaller(keys - {OVERFLOW}, keys);
    }
  }

  lemma {:induction false} Smaller(a: set<string>, b: set<string>)
    requires a <= b
    ensures |a| <= |b|
  {
    if a != {} {
      var x :| x in a;
      Smaller(a - {x}, b - {x});
    }
  }

  ghost predicate TableBounded(t: Table, limits: Limits) {
    KeysBounded(t.Keys, limits.kinds) && forall k :: k in t ==> KeysBounded(t[k].Keys, limits.sources)
  }

  /** The second table differs from the first only in having a window for the key, with some contents. */
  ghost predicate Extends(t: Table, after: Table, key: (string, string), ops: seq<Op>) {
    && after.Keys == t.Keys + {key.0}
    && after[key.0].Keys == SourcesOf(t, key.0).Keys + {key.1}
    && after[key.0][key.1] == ops
    && (forall s :: s in after[key.0] && s != key.1 ==> after[key.0][s] == SourcesOf(t, key.0)[s])
    && (forall k :: k in t && k != key.0 ==> after[k] == t[k])
  }

  lemma OpenedExtends(t: Table, key: (string, string))
    ensures Extends(t, Opened(t, key), key, OpsOf(SourcesOf(t, key.0), key.1))
  {
  }

  lemma AppendedExtends(t: Table, key: (string, string), op: Op)
    requires Contains(t, key)
    ensures Extends(t, Appended(t, key, op), key, t[key.0][key.1] + [op])
  {
  }

  lemma ExtendsTwice(t: Table, u: Table, v: Table, key: (string, string), a: seq<Op>, b: seq<Op>)
    requires Extends(t, u, key, a) && Extends(u, v, key, b)
    ensures Extends(t, v, key, b)
  {
  }

  lemma PutExtends(t: Table, limits: Limits, e: Entry)
    ensures var key := Route(t, limits, e.kind, e.source);
            Extends(t, Put(t, limits, e), key, OpsOf(SourcesOf(t, key.0), key.1) + [e.op])
  {
    var key := Route(t, limits, e.kind, e.source);
    var ready := Opened(t, key);
    OpenedExtends(t, key);
    AppendedExtends(ready, key, e.op);
    ExtendsTwice(t, ready, Put(t, limits, e), key, ready[key.0][key.1], ready[key.0][key.1] + [e.op]);
  }

  /** Over any run of records, kinds and sources per kind never exceed their limits. */
  lemma {:induction false} FillIsBounded(limits: Limits, entries: seq<Entry>)
    requires limits.kinds >= 1 && limits.sources >= 1
    ensures var t := Fill(limits, entries);
            && TableBounded(t, limits) && |t| <= limits.kinds
            && forall k :: k in t ==> |t[k]| <= limits.sources
    decreases |entries|
  {
    var t := Fill(limits, entries);
    if entries == [] {
      assert t.Keys - {OVERFLOW} == {};
    } else {
      var before, e := Fill(limits, entries[..|entries| - 1]), entries[|entries| - 1];
      FillIsBounded(limits, entries[..|entries| - 1]);
      PutExtends(before, limits, e);
      var key := Route(before, limits, e.kind, e.source);
      KeyStaysBounded(before.Keys, e.kind, limits.kinds);
      assert KeysBounded(SourcesOf(before, key.0).Keys, limits.sources) by {
        var none: map<string, seq<Op>> := map[];
        assert none.Keys - {OVERFLOW} == {};
      }
      KeyStaysBounded(SourcesOf(before, key.0).Keys, e.source, limits.sources);
    }
    KeysBoundedMeaning(t.Keys, limits.kinds);
    forall k | k in t
      ensures |t[k]| <= limits.sources
    {
      KeysBoundedMeaning(t[k].Keys, limits.sources);
    }
  }

  // ---- Stable routes ----

  lemma OwnKeySettles(keys: set<string>, requested: string, limit: int)
    ensures var key := BoundedKey(keys, requested, limit);
            BoundedKey(keys + {key}, requested, limit) == key
  {
    var key := BoundedKey(keys, requested, limit);
    Smaller(keys, keys + {key});
  }

  lemma SettledKeyStays(keys: set<string>, requested: string, other: string, limit: int)
    requires BoundedKey(keys, requested, limit) in keys
    ensures BoundedKey(keys + {BoundedKey(keys, other, limit)}, requested, limit) == BoundedKey(keys, requested, limit)
  {
    if requested !in keys {
      assert keys + {BoundedKey(keys, other, limit)} == keys;
    }
  }

  /** The window for a kind and source exists. */
  ghost predicate Settled(t: Table, limits: Limits, kind: string, source: string) {
    var key := Route(t, limits, kind, source);
    Contains(t, key)
  }

  lemma PutSettles(t: Table, limits: Limits, e: Entry)
    ensures Settled(Put(t, limits, e), limits, e.kind, e.source)
    ensures Route(Put(t, limits, e), limits, e.kind, e.source) == Route(t, limits, e.kind, e.source)
  {
    PutExtends(t, limits, e);
    var key := Route(t, limits, e.kind, e.source);
    OwnKeySettles(t.Keys, e.kind, limits.kinds);
    OwnKeySettles(SourcesOf(t, key.0).Keys, e.source, limits.sources);
  }

  lemma PutKeepsRoute(t: Table, limits: Limits, e: Entry, kind: string, source: string)
    requires Settled(t, limits, kind, source)
    ensures Settled(Put(t, limits, e), limits, kind, source)
    ensures Route(Put(t, limits, e), limits, kind, source) == Route(t, limits, kind, source)
  {
    PutExtends(t, limits, e);
    var key := Route(t, limits, kind, source);
    SettledKeyStays(t.Keys, kind, e.kind, limits.kinds);
    if key.0 == Route(t, limits, e.kind, e.source).0 {
      SettledKeyStays(t[key.0].Keys, source, e.source, limits.sources);
    }
  }

  /** A kind and source that are settled on a key. */
  ghost predicate RoutedTo(t: Table, limits: Limits, kind: string, source: string, key: (string, string)) {
    Settled(t, limits, kind, source) && Route(t, limits, kind, source) == key
  }

  lemma FillStep(limits: Limits, entries: seq<Entry>, e: Entry)
    ensures Fill(limits, entries + [e]) == Put(Fill(limits, entries), limits, e)
  {
    assert (entries + [e])[..|entries|] == entries;
  }

  lemma FillKeepsRoute(limits: Limits, entries: seq<Entry>, e: Entry, kind: string, source: string,
                       key: (string, string))
    requires RoutedTo(Fill(limits, entries), limits, kind, source, key)
    ensures RoutedTo(Fill(limits, entries + [e]), limits, kind, source, key)
  {
    FillStep(limits, entries, e);
    PutKeepsRoute(Fill(limits, entries), limits, e, kind, source);
  }

  lemma {:induction false} RouteStays(limits: Limits, entries: seq<Entry>, later: seq<Entry>, kind: string,
                                      source: string, key: (string, string))
    requires RoutedTo(Fill(limits, entries), limits, kind, source, key)
    ensures RoutedTo(Fill(limits, entries + later), limits, kind, source, key)
    decreases |later|
  {
    if later == [] {
      assert entries + later == entries;
    } else {
      var n := |later| - 1;
      RouteStays(limits, entries, later[..n], kind, source, key);
      assert entries + later == entries + later[..n] + [later[n]];
      FillKeepsRoute(limits, entries + later[..n], later[n], kind, source, key);
    }
  }

  /** The key chosen for a kind and source at a record is the one chosen ever after, and a query for them reads exactly
      the window their records went to. */
  lemma RoutesAreStable(limits: Limits, earlier: seq<Entry>, e: Entry, later: seq<Entry>)
    ensures var key := Route(Fill(limits, earlier), limits, e.kind, e.source);
            var t := Fill(limits, earlier + [e] + later);
            RoutedTo(t, limits, e.kind, e.source, key) && Existing(t, e.kind, e.source) == Common.Some(key)
  {
    FillStep(limits, earlier, e);
    PutSettles(Fill(limits, earlier), limits, e);
    var key := Route(Fill(limits, earlier), limits, e.kind, e.source);
    RouteStays(limits, earlier + [e], later, e.kind, e.source, key);
    SettledIsRead(Fill(limits, earlier + [e] + later), limits, e.kind, e.source);
  }

  lemma SettledIsRead(t: Table, limits: Limits, kind: string, source: string)
    requires Settled(t, limits, kind, source)
    ensures Existing(t, kind, source) == Common.Some(Route(t, limits, kind, source))
  {
  }

  /** A query for a kind and source that have no window of their own reads, if the overflow window of its kind exists or
      its kind has no key and the overflow kind has its source or an overflow window, that window; else nothing. */
  lemma UnsettledReadsOverflow(t: Table, limits: Limits, kind: string, source: string)
    requires !Settled(t, limits, kind, source)
    ensures Existing(t, kind, source).Some? <==>
            if kind in t then OVERFLOW in t[kind]
            else OVERFLOW in t && (source in t[OVERFLOW] || OVERFLOW in t[OVERFLOW])
    ensures var read := Existing(t, kind, source);
            read.Some? ==> (read.value.0 == OVERFLOW && kind !in t) || (read.value.1 == OVERFLOW && source !in t[kind])
  {
  }

  // ---- The table as a partition of everything recorded ----

  /** The records that went to a window, in order. */
  function Selected(t: Table, limits: Limits, entries: seq<Entry>, key: (string, string)): seq<Op> {
    if entries == [] then []
    else
      var e := entries[|entries| - 1];
      Selected(t, limits, entries[..|entries| - 1], key)
      + if Route(t, limits, e.kind, e.source) == key then [e.op] else []
  }

  ghost predicate SameRoutes(t: Table, u: Table, limits: Limits, entries: seq<Entry>) {
    forall i :: 0 <= i < |entries| ==>
      Route(t, limits, entries[i].kind, entries[i].source) == Route(u, limits, entries[i].kind, entries[i].source)
  }

  lemma {:induction false} SelectedSame(t: Table, u: Table, limits: Limits, entries: seq<Entry>, key: (string, string))
    requires SameRoutes(t, u, limits, entries)
    ensures Selected(t, limits, entries, key) == Selected(u, limits, entries, key)
    decreases |entries|
  {
    if entries != [] {
      SelectedSame(t, u, limits, entries[..|entries| - 1], key);
    }
  }

  ghost predicate AllSettled(t: Table, limits: Limits, entries: seq<Entry>) {
    forall i :: 0 <= i < |entries| ==> Settled(t, limits, entries[i].kind, entries[i].source)
  }

  lemma {:induction false} NothingSelected(t: Table, limits: Limits, entries: seq<Entry>, key: (string, string))
    requires AllSettled(t, limits, entries) && !(Contains(t, key))
    ensures Selected(t, limits, entries, key) == []
    decreases |entries|
  {
    if entries != [] {
      NothingSelected(t, limits, entries[..|entries| - 1], key);
    }
  }

  ghost predicate Partition(t: Table, limits: Limits, entries: seq<Entry>) {
    forall k, s :: k in t && s in t[k] ==> t[k][s] == Selected(t, limits, entries, (k, s))
  }

  /** Nothing is lost, duplicated or mixed up: each window has received exactly the records routed to it, in order, and
      each record went to the window of its route. */
  ghost predicate Accounted(t: Table, limits: Limits, entries: seq<Entry>) {
    Partition(t, limits, entries) && AllSettled(t, limits, entries)
  }

  lemma {:induction false} FillIsPartition(limits: Limits, entries: seq<Entry>)
    ensures Accounted(Fill(limits, entries), limits, entries)
    decreases |entries|
  {
    if entries != [] {
      var earlier, e := entries[..|entries| - 1], entries[|entries| - 1];
      assert entries == earlier + [e];
      FillIsPartition(limits, earlier);
      FillStaysPartition(limits, earlier, e);
    }
  }

  lemma FillStaysPartition(limits: Limits, entries: seq<Entry>, e: Entry)
    requires Accounted(Fill(limits, entries), limits, entries)
    ensures Accounted(Fill(limits, entries + [e]), limits, entries + [e])
  {
    FillStep(limits, entries, e);
    PartitionStep(Fill(limits, entries), limits, entries, e);
  }

  lemma PutKeepsRoutes(t: Table, limits: Limits, entries: seq<Entry>, e: Entry)
    requires AllSettled(t, limits, entries)
    ensures SameRoutes(t, Put(t, limits, e), limits, entries) && AllSettled(Put(t, limits, e), limits, entries + [e])
  {
    PutSettles(t, limits, e);
    forall i | 0 <= i < |entries|
      ensures RoutedTo(Put(t, limits, e), limits, entries[i].kind, entries[i].source,
                       Route(t, limits, entries[i].kind, entries[i].source))
    {
      PutKeepsRoute(t, limits, e, entries[i].kind, entries[i].source);
    }
  }

  lemma SelectedStep(t: Table, limits: Limits, entries: seq<Entry>, e: Entry, key: (string, string))
    ensures Selected(t, limits, entries + [e], key)
         == Selected(t, limits, entries, key) + if Route(t, limits, e.kind, e.source) == key then [e.op] else []
  {
    assert (entries + [e])[..|entries|] == entries;
  }

  lemma PartitionStep(t: Table, limits: Limits, entries: seq<Entry>, e: Entry)
    requires Accounted(t, limits, entries)
    ensures Accounted(Put(t, limits, e), limits, entries + [e])
  {
    var after := Put(t, limits, e);
    PutKeepsRoutes(t, limits, entries, e);
    forall k, s | k in after && s in after[k]
      ensures after[k][s] == Selected(after, limits, entries + [e], (k, s))
    {
      PartitionAt(t, limits, entries, e, (k, s));
    }
  }

  lemma PartitionAt(t: Table, limits: Limits, entries: seq<Entry>, e: Entry, key: (string, string))
    requires Partition(t, limits, entries) && AllSettled(t, limits, entries)
    requires var after := Put(t, limits, e);
             SameRoutes(t, after, limits, entries) && Contains(after, key)
    ensures Put(t, limits, e)[key.0][key.1] == Selected(Put(t, limits, e), limits, entries + [e], key)
  {
    var after := Put(t, limits, e);
    PutExtends(t, limits, e);
    PutSettles(t, limits, e);
    SelectedStep(after, limits, entries, e, key);
    SelectedSame(t, after, limits, entries, key);
    if !(Contains(t, key)) {
      NothingSelected(t, limits, entries, key);
    }
  }

  // ---- The attribution object ----

  /** The records among the calls of a window. */
  function Recorded(ops: seq<Op>): seq<Op> {
    if ops == [] then []
    else Recorded(ops[..|ops| - 1]) + if ops[|ops| - 1].Query? then [] else [ops[|ops| - 1]]
  }

  lemma RecordedStep(ops: seq<Op>, op: Op)
    ensures Recorded(ops + [op]) == Recorded(ops) + if op.Query? then [] else [op]
  {
    assert (ops + [op])[..|ops|] == ops;
  }

  /** Queries leave no trace in what was recorded. */
  lemma {:induction false} QueriesDoNotCount(ops: seq<Op>)
    ensures All(LatencyOf, Recorded(ops)) == All(LatencyOf, ops)
    ensures All(FailureOf, Recorded(ops)) == All(FailureOf, ops)
    decreases |ops|
  {
    if ops != [] {
      var earlier, op := ops[..|ops| - 1], ops[|ops| - 1];
      QueriesDoNotCount(earlier);
      if op.Query? {
        assert Recorded(ops) == Recorded(earlier);
      } else {
        assert Recorded(ops)[..|Recorded(ops)| - 1] == Recorded(earlier);
      }
    }
  }

  /** What is known of a window: its key and the records it has received. */
  datatype Holding = Holding(key: (string, string), records: seq<Op>)

  function InnerOf<W>(windows: map<string, map<string, W>>, kind: string): map<string, W> {
    if kind in windows then windows[kind] else map[]
  }

  /** The same kinds, and for each kind the same sources. */
  ghost predicate SameShape<W>(windows: map<string, map<string, W>>, t: Table) {
    windows.Keys == t.Keys && forall k :: k in windows ==> windows[k].Keys == t[k].Keys
  }

  /** Every window holds what the table says, under its own key; so no two keys share a window. */
  ghost predicate Represents<W>(windows: map<string, map<string, W>>, holdings: map<W, Holding>, t: Table) {
    && SameShape(windows, t)
    && forall key :: Contains(windows, key) ==> HeldAs(windows, holdings, t, key)
  }

  ghost predicate HeldAs<W>(windows: map<string, map<string, W>>, holdings: map<W, Holding>, t: Table,
                            key: (string, string))
    requires Contains(windows, key) && SameShape(windows, t)
  {
    var w := windows[key.0][key.1];
    w in holdings && holdings[w] == Holding(key, t[key.0][key.1])
  }

  lemma OpenRepresents<W>(windows: map<string, map<string, W>>, holdings: map<W, Holding>, t: Table,
                          key: (string, string), w: W)
    requires Represents(windows, holdings, t) && !Contains(windows, key) && w !in holdings
    ensures Represents(windows[key.0 := InnerOf(windows, key.0)[key.1 := w]], holdings[w := Holding(key, [])],
                       Opened(t, key))
  {
    var after := windows[key.0 := InnerOf(windows, key.0)[key.1 := w]];
    var held, u := holdings[w := Holding(key, [])], Opened(t, key);
    OpenedExtends(t, key);
    assert SameShape(after, u);
    forall other | Contains(after, other)
      ensures HeldAs(after, held, u, other)
    {
      if other != key {
        assert Contains(windows, other);
        assert HeldAs(windows, holdings, t, other);
      }
    }
  }

  lemma AppendRepresents<W>(windows: map<string, map<string, W>>, holdings: map<W, Holding>, t: Table,
                            key: (string, string), op: Op)
    requires Represents(windows, holdings, t) && Contains(windows, key)
    ensures var w := windows[key.0][key.1];
            && w in holdings
            && Represents(windows, holdings[w := Holding(key, holdings[w].records + [op])], Appended(t, key, op))
  {
    var w := windows[key.0][key.1];
    assert HeldAs(windows, holdings, t, key);
    var held, u := holdings[w := Holding(key, holdings[w].records + [op])], Appended(t, key, op);
    AppendedExtends(t, key, op);
    assert SameShape(windows, u);
    forall other | Contains(windows, other)
      ensures HeldAs(windows, held, u, other)
    {
      assert HeldAs(windows, holdings, t, other);
    }
  }

  /** What a window that has received the records of its key answers, when its times never went back: the summary of
      exactly the records routed there within the window before now. */
  lemma RoutedSummary(limits: Limits, entries: seq<Entry>, key: (string, string), ops: seq<Op>, window: real, now: real)
    requires var t := Fill(limits, entries); Contains(t, key) && Recorded(ops) == t[key.0][key.1]
    requires InOrder(ops + [Query(now)])
    ensures WindowSummary(ops + [Query(now)], window)
         == HistorySummary(Selected(Fill(limits, entries), limits, entries, key), now - window)
  {
    FillIsPartition(limits, entries);
    QueriesDoNotCount(ops);
    SummaryIsOfHistory(ops, window, now);
  }

  class BoundedAttribution {
    const windowSeconds: real
    const maxKinds: nat
    const maxSources: nat
    var windows: map<string, map<string, LatencyWindow>>
    ghost var holdings: map<LatencyWindow, Holding>
    ghost var entries: seq<Entry>
    ghost var table: Table

    ghost function TheLimits(): Limits { Limits(maxKinds, maxSources) }

    /** Every window has received what is noted of it. */
    ghost predicate Faithful()
      reads this`holdings, holdings.Keys
    {
      forall w :: w in holdings ==>
        w.Valid() && w.windowSeconds == windowSeconds && Recorded(w.ops) == holdings[w].records
    }

    ghost predicate Valid()
      reads this, holdings.Keys
    {
      && windowSeconds >= 1.0 && maxKinds >= 1 && maxSources >= 1
      && Faithful() && Represents(windows, holdings, table)
      && table == Fill(TheLimits(), entries)
    }

    constructor (windowSeconds: real, maxKinds: int, maxSources: int)
      ensures Valid() && windows == map[] && entries == [] && holdings == map[]
      ensures this.windowSeconds == Common.Max(1.0, windowSeconds)
      ensures this.maxKinds == (if maxKinds > 1 then maxKinds else 1)
      ensures this.maxSources == (if maxSources > 1 then maxSources else 1)
    {
      this.windowSeconds := Common.Max(1.0, windowSeconds);
      this.maxKinds := if maxKinds > 1 then maxKinds else 1;
      this.maxSources := if maxSources > 1 then maxSources else 1;
      windows, entries, table, holdings := map[], [], map[], map[];
    }

    /** Finds the window for a kind and source, creating it if need be. */
    method Window(kind: string, source: string) returns (w: LatencyWindow, ghost key: (string, string))
      requires windowSeconds >= 1.0 && Faithful() && Represents(windows, holdings, table)
      modifies this`windows, this`table, this`holdings
      ensures Faithful() && Represents(windows, holdings, table)
      ensures key == Route(old(table), TheLimits(), kind, source) && table == Opened(old(table), key)
      ensures Contains(windows, key) && w == windows[key.0][key.1]
      ensures fresh(holdings.Keys - old(holdings.Keys))
    {
      var operationKey := BoundedKey(windows.Keys, kind, maxKinds);
      var sources := InnerOf(windows, operationKey);
      var sourceKey := BoundedKey(sources.Keys, source, maxSources);
      key := (operationKey, sourceKey);
      assert sources.Keys == SourcesOf(table, operationKey).Keys;
      if sourceKey in sources {
        w := sources[sourceKey];
      } else {
        w := new LatencyWindow(windowSeconds);
        OpenRepresents(windows, holdings, table, key, w);
        windows := windows[operationKey := sources[sourceKey := w]];
        table, holdings := Opened(table, key), holdings[w := Holding(key, [])];
      }
    }

    /** Notes one more record in the window for a key, which has just received it. */
    ghost method Enter(w: LatencyWindow, key: (string, string), e: Entry)
      requires Represents(windows, holdings, table) && Contains(windows, key) && w == windows[key.0][key.1]
      requires w in holdings && w.Valid() && w.windowSeconds == windowSeconds
      requires Recorded(w.ops) == holdings[w].records + [e.op]
      requires forall v :: v in holdings && v != w ==>
                 v.Valid() && v.windowSeconds == windowSeconds && Recorded(v.ops) == holdings[v].records
      modifies this`holdings, this`table, this`entries
      ensures Faithful() && Represents(windows, holdings, table) && Contains(old(table), key)
      ensures table == Appended(old(table), key, e.op) && entries == old(entries) + [e]
      ensures holdings.Keys == old(holdings.Keys)
    {
      AppendRepresents(windows, holdings, table, key, e.op);
      holdings := holdings[w := Holding(key, holdings[w].records + [e.op])];
      table, entries := Appended(table, key, e.op), entries + [e];
    }

    method RecordLatency(kind: string, source: string, ms: real, now: real)
      requires Valid()
      modifies this, holdings.Keys
      ensures Valid() && entries == old(entries) + [Entry(kind, source, Record(now, ms))]
      ensures fresh(holdings.Keys - old(holdings.Keys))
    {
      ghost var e := Entry(kind, source, Record(now, ms));
      FillStep(TheLimits(), entries, e);
      var w, key := Window(kind, source);
      RecordedStep(w.ops, e.op);
      w.RecordLatency(ms, now);
      Enter(w, key, e);
    }

    method RecordTimeout(kind: string, source: string, now: real)
      requires Valid()
      modifies this, holdings.Keys
      ensures Valid() && entries == old(entries) + [Entry(kind, source, Failure(now))]
      ensures fresh(holdings.Keys - old(holdings.Keys))
    {
      ghost var e := Entry(kind, source, Failure(now));
      FillStep(TheLimits(), entries, e);
      var w, key := Window(kind, source);
      RecordedStep(w.ops, e.op);
      w.RecordTimeout(now);
      Enter(w, key, e);
    }

    method ExistingWindow(kind: string, source: string) returns (w: LatencyWindow?)
      requires SameShape(windows, table)
      ensures var key := Existing(table, kind, source);
              w == if key.Some? then windows[key.value.0][key.value.1] else null
    {
      var sources: map<string, LatencyWindow>;
      if kind in windows {
        sources := windows[kind];
      } else if OVERFLOW in windows {
        sources := windows[OVERFLOW];
      } else {
        return null;
      }
      if source in sources {
        return sources[source];
      }
      if OVERFLOW in sources {
        return sources[OVERFLOW];
      }
      w := null;
    }

    /** The summary of the window that a query for a kind and source reads, which has received exactly the records of
        its key in the table. */
    method SourceSummary(kind: string, source: string, now: real) returns (r: Summary)
      requires Valid()
      modifies holdings.Keys
      ensures Valid()
      ensures Existing(table, kind, source).None? ==> r == EMPTY_SUMMARY
      ensures Existing(table, kind, source).Some? ==>
                var key := Existing(table, kind, source).value;
                var w := windows[key.0][key.1];
                && w.ops == old(w.ops) + [Query(now)] && Recorded(old(w.ops)) == table[key.0][key.1]
                && r == WindowSummary(w.ops, windowSeconds)
    {
      var w := ExistingWindow(kind, source);
      if w == null {
        return EMPTY_SUMMARY;
      }
      assert HeldAs(windows, holdings, table, Existing(table, kind, source).value);
      r := Ask(w, now);
    }

    method Ask(w: LatencyWindow, now: real) returns (r: Summary)
      requires Faithful() && w in holdings
      modifies w
      ensures Faithful() && w.ops == old(w.ops) + [Query(now)]
      ensures r == WindowSummary(w.ops, windowSeconds)
    {
      RecordedStep(w.ops, Query(now));
      r := w.SummaryAt(now);
    }
  }
}
