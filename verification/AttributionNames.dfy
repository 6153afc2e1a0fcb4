/** Which records keep the names they were recorded under, and what queries for other names read. */
module AttributionNames {
  import opened Common
  import opened Latency
  import opened Attribution

  // ---- The recorded names ----

  function Kinds(entries: seq<Entry>): set<string> {
    if entries == [] then {} else Kinds(entries[..|entries| - 1]) + {entries[|entries| - 1].kind}
  }

  function SourcesOfKind(entries: seq<Entry>, kind: string): set<string> {
    if entries == [] then {}
    else
      var e := entries[|entries| - 1];
      SourcesOfKind(entries[..|entries| - 1], kind) + if e.kind == kind then {e.source} else {}
  }

  /** The sources recorded under a key of the table. */
  function SourcesUnder(t: Table, limits: Limits, entries: seq<Entry>, k: string): set<string> {
    if entries == [] then {}
    else
      var e := entries[|entries| - 1];
      SourcesUnder(t, limits, entries[..|entries| - 1], k)
      + if Route(t, limits, e.kind, e.source).0 == k then {e.source} else {}
  }

  lemma {:induction false} KindIn(entries: seq<Entry>, i: nat)
    requires i < |entries|
    ensures entries[i].kind in Kinds(entries)
  {
    if i < |entries| - 1 {
      KindIn(entries[..|entries| - 1], i);
    }
  }

  lemma {:induction false} SourceIn(entries: seq<Entry>, i: nat)
    requires i < |entries|
    ensures entries[i].source in SourcesOfKind(entries, entries[i].kind)
  {
    if i < |entries| - 1 {
      SourceIn(entries[..|entries| - 1], i);
    }
  }

  lemma {:induction false} RecordOfKind(entries: seq<Entry>, kind: string) returns (i: nat)
    requires kind in Kinds(entries)
    ensures i < |entries| && entries[i].kind == kind
  {
    i := |entries| - 1;
    if entries[i].kind != kind {
      i := RecordOfKind(entries[..i], kind);
    }
  }

  lemma {:induction false} RecordOfSource(entries: seq<Entry>, kind: string, source: string) returns (i: nat)
    requires source in SourcesOfKind(entries, kind)
    ensures i < |entries| && entries[i].kind == kind && entries[i].source == source
  {
    i := |entries| - 1;
    if !(entries[i].kind == kind && entries[i].source == source) {
      i := RecordOfSource(entries[..i], kind, source);
    }
  }

  lemma {:induction false} UnderSame(t: Table, u: Table, limits: Limits, entries: seq<Entry>, k: string)
    requires SameRoutes(t, u, limits, entries)
    ensures SourcesUnder(t, limits, entries, k) == SourcesUnder(u, limits, entries, k)
    decreases |entries|
  {
    if entries != [] {
      UnderSame(t, u, limits, entries[..|entries| - 1], k);
    }
  }

  lemma {:induction false} NobodyUnder(t: Table, limits: Limits, entries: seq<Entry>, k: string)
    requires AllSettled(t, limits, entries) && k !in t
    ensures SourcesUnder(t, limits, entries, k) == {}
    decreases |entries|
  {
    if entries != [] {
      var e := entries[|entries| - 1];
      NobodyUnder(t, limits, entries[..|entries| - 1], k);
      assert Settled(t, limits, e.kind, e.source);
    }
  }

  lemma {:induction false} UnderIsOfKind(t: Table, limits: Limits, entries: seq<Entry>, k: string)
    requires forall i :: 0 <= i < |entries| ==>
               (Route(t, limits, entries[i].kind, entries[i].source).0 == k <==> entries[i].kind == k)
    ensures SourcesUnder(t, limits, entries, k) == SourcesOfKind(entries, k)
    decreases |entries|
  {
    if entries != [] {
      UnderIsOfKind(t, limits, entries[..|entries| - 1], k);
    }
  }

  // ---- Keys and names ----

  /** The keys made for some names: exactly those names while they are fewer than the limit; from then on the overflow key
      is there and no room is left. */
  ghost predicate KeysFollow(keys: set<string>, names: set<string>, limit: int) {
    && keys <= names + {OVERFLOW}
    && (|names| < limit ==> keys == names)
    && (|names| >= limit ==> OVERFLOW in keys && |keys| >= limit - 1)
  }

  lemma KeysFollowStep(keys: set<string>, names: set<string>, name: string, limit: int)
    requires limit >= 1 && KeysFollow(keys, names, limit)
    ensures KeysFollow(keys + {BoundedKey(keys, name, limit)}, names + {name}, limit)
  {
    var after := keys + {BoundedKey(keys, name, limit)};
    Smaller(keys, after);
    if name in names {
      assert names + {name} == names;
      assert after == keys;
    } else {
      assert |names + {name}| == |names| + 1;
    }
  }

  /** Whether a lookup of a name finds its own key or the overflow key. */
  lemma KeysLookup(keys: set<string>, names: set<string>, name: string, limit: int)
    requires KeysFollow(keys, names, limit)
    ensures OVERFLOW in keys <==> OVERFLOW in names || |names| >= limit
    ensures name in keys || OVERFLOW in keys <==> name in names || OVERFLOW in names || |names| >= limit
    ensures name in keys && name != OVERFLOW ==> name in names
  {
  }

  ghost predicate Follows(t: Table, limits: Limits, entries: seq<Entry>) {
    && KeysFollow(t.Keys, Kinds(entries), limits.kinds)
    && forall k :: k in t ==> KeysFollow(t[k].Keys, SourcesUnder(t, limits, entries, k), limits.sources)
  }

  lemma FollowsUnder(t: Table, after: Table, limits: Limits, entries: seq<Entry>, e: Entry, ops: seq<Op>, k: string)
    requires limits.sources >= 1 && AllSettled(t, limits, entries) && SameRoutes(t, after, limits, entries)
    requires Route(after, limits, e.kind, e.source) == Route(t, limits, e.kind, e.source)
    requires Extends(t, after, Route(t, limits, e.kind, e.source), ops) && k in after
    requires k in t ==> KeysFollow(t[k].Keys, SourcesUnder(t, limits, entries, k), limits.sources)
    ensures KeysFollow(after[k].Keys, SourcesUnder(after, limits, entries + [e], k), limits.sources)
  {
    var under := SourcesUnder(t, limits, entries, k);
    assert (entries + [e])[..|entries|] == entries;
    UnderSame(t, after, limits, entries, k);
    if k !in t {
      NobodyUnder(t, limits, entries, k);
    }
    if k == Route(t, limits, e.kind, e.source).0 {
      KeysFollowStep(SourcesOf(t, k).Keys, under, e.source, limits.sources);
    } else {
      assert under + {} == under;
    }
  }

  lemma FollowsStep(t: Table, limits: Limits, entries: seq<Entry>, e: Entry)
    requires limits.kinds >= 1 && limits.sources >= 1
    requires Follows(t, limits, entries) && AllSettled(t, limits, entries)
    ensures Follows(Put(t, limits, e), limits, entries + [e])
  {
    var after, key := Put(t, limits, e), Route(t, limits, e.kind, e.source);
    var ops := OpsOf(SourcesOf(t, key.0), key.1) + [e.op];
    PutExtends(t, limits, e);
    PutSettles(t, limits, e);
    PutKeepsRoutes(t, limits, entries, e);
    assert (entries + [e])[..|entries|] == entries;
    KeysFollowStep(t.Keys, Kinds(entries), e.kind, limits.kinds);
    forall k | k in after
      ensures KeysFollow(after[k].Keys, SourcesUnder(after, limits, entries + [e], k), limits.sources)
    {
      FollowsUnder(t, after, limits, entries, e, ops, k);
    }
  }

  lemma {:induction false} FillFollows(limits: Limits, entries: seq<Entry>)
    requires limits.kinds >= 1 && limits.sources >= 1
    ensures Follows(Fill(limits, entries), limits, entries)
    decreases |entries|
  {
    if entries != [] {
      var earlier, e := entries[..|entries| - 1], entries[|entries| - 1];
      assert entries == earlier + [e];
      FillFollows(limits, earlier);
      FillIsPartition(limits, earlier);
      FollowsStep(Fill(limits, earlier), limits, earlier, e);
      FillStep(limits, earlier, e);
    }
  }

  // ---- When records keep their own names ----

  /** A kind recorded for the first time gets a key of its own exactly when fewer than the limit less one have been
      recorded before it, and the overflow key otherwise. */
  lemma FirstRecordDecides(limits: Limits, earlier: seq<Entry>, e: Entry)
    requires limits.kinds >= 1 && limits.sources >= 1 && e.kind !in Kinds(earlier) && e.kind != OVERFLOW
    ensures Route(Fill(limits, earlier), limits, e.kind, e.source).0
         == if |Kinds(earlier)| < limits.kinds - 1 then e.kind else OVERFLOW
  {
    FillFollows(limits, earlier);
  }

  /** Fewer kinds than the limit, and of each kind fewer sources than the limit. */
  ghost predicate FitsLimits(limits: Limits, entries: seq<Entry>) {
    && |Kinds(entries)| < limits.kinds
    && forall k :: k in Kinds(entries) ==> |SourcesOfKind(entries, k)| < limits.sources
  }

  /** Every record goes to the window of its own kind and source. */
  ghost predicate OwnRoutes(t: Table, limits: Limits, entries: seq<Entry>) {
    forall i :: 0 <= i < |entries| ==>
      Route(t, limits, entries[i].kind, entries[i].source) == (entries[i].kind, entries[i].source)
  }

  /** The keys of the table are exactly the recorded names. */
  ghost predicate OwnKeys(t: Table, entries: seq<Entry>) {
    t.Keys == Kinds(entries) && forall k :: k in t ==> t[k].Keys == SourcesOfKind(entries, k)
  }

  lemma FollowedKeysAreOwn(t: Table, limits: Limits, entries: seq<Entry>)
    requires FitsLimits(limits, entries) && Follows(t, limits, entries)
    ensures OwnKeys(t, entries)
  {
    forall k | k in t
      ensures t[k].Keys == SourcesOfKind(entries, k)
    {
      forall i | 0 <= i < |entries|
        ensures Route(t, limits, entries[i].kind, entries[i].source).0 == entries[i].kind
      {
        KindIn(entries, i);
      }
      UnderIsOfKind(t, limits, entries, k);
    }
  }

  lemma OwnKeysRoute(t: Table, limits: Limits, entries: seq<Entry>)
    requires OwnKeys(t, entries)
    ensures OwnRoutes(t, limits, entries)
  {
    forall i | 0 <= i < |entries|
      ensures Route(t, limits, entries[i].kind, entries[i].source) == (entries[i].kind, entries[i].source)
    {
      KindIn(entries, i);
      SourceIn(entries, i);
    }
  }

  // ---- Exactly when every record keeps its name ----

  /** When a record was made its kind had a key or there was room for one, and so had its source; the overflow name always
      finds its key. */
  ghost predicate InTime(limits: Limits, earlier: seq<Entry>, e: Entry) {
    && (e.kind == OVERFLOW || e.kind in Kinds(earlier) || |Kinds(earlier)| < limits.kinds - 1)
    && (|| e.source == OVERFLOW || e.source in SourcesOfKind(earlier, e.kind)
        || |SourcesOfKind(earlier, e.kind)| < limits.sources - 1)
  }

  ghost predicate AllInTime(limits: Limits, entries: seq<Entry>) {
    forall i :: 0 <= i < |entries| ==> InTime(limits, entries[..i], entries[i])
  }

  lemma {:induction false} NoSources(entries: seq<Entry>, kind: string)
    requires kind !in Kinds(entries)
    ensures SourcesOfKind(entries, kind) == {}
  {
    if entries != [] {
      NoSources(entries[..|entries| - 1], kind);
    }
  }

  /** Where all keys so far are recorded names, a record keeps its name exactly when it comes in time. */
  lemma OwnRouteIff(t: Table, limits: Limits, entries: seq<Entry>, e: Entry)
    requires OwnKeys(t, entries)
    ensures Route(t, limits, e.kind, e.source) == (e.kind, e.source) <==> InTime(limits, entries, e)
  {
    if e.kind !in t {
      NoSources(entries, e.kind);
    }
    assert SourcesOf(t, e.kind).Keys == SourcesOfKind(entries, e.kind);
  }

  lemma OwnKeysExtend(t: Table, after: Table, entries: seq<Entry>, e: Entry, ops: seq<Op>)
    requires OwnKeys(t, entries) && Extends(t, after, (e.kind, e.source), ops)
    ensures OwnKeys(after, entries + [e])
  {
    assert (entries + [e])[..|entries|] == entries;
    forall k | k in after
      ensures after[k].Keys == SourcesOfKind(entries + [e], k)
    {
      if k !in t {
        NoSources(entries, k);
      }
    }
  }

  lemma OwnKeysStep(t: Table, limits: Limits, entries: seq<Entry>, e: Entry)
    requires OwnKeys(t, entries) && Route(t, limits, e.kind, e.source) == (e.kind, e.source)
    ensures OwnKeys(Put(t, limits, e), entries + [e])
  {
    PutExtends(t, limits, e);
    OwnKeysExtend(t, Put(t, limits, e), entries, e, OpsOf(SourcesOf(t, e.kind), e.source) + [e.op]);
  }

  lemma OwnRoutesStep(t: Table, limits: Limits, entries: seq<Entry>, e: Entry)
    requires AllSettled(t, limits, entries)
    ensures OwnRoutes(Put(t, limits, e), limits, entries + [e]) <==>
            OwnRoutes(t, limits, entries) && Route(t, limits, e.kind, e.source) == (e.kind, e.source)
  {
    var after, all := Put(t, limits, e), entries + [e];
    PutSettles(t, limits, e);
    PutKeepsRoutes(t, limits, entries, e);
    assert all[|entries|] == e && forall i :: 0 <= i < |entries| ==> all[i] == entries[i];
    if OwnRoutes(after, limits, all) {
      forall i | 0 <= i < |entries|
        ensures Route(t, limits, entries[i].kind, entries[i].source) == (entries[i].kind, entries[i].source)
      {
        assert Route(after, limits, all[i].kind, all[i].source) == (all[i].kind, all[i].source);
      }
      assert Route(after, limits, all[|entries|].kind, all[|entries|].source) == (e.kind, e.source);
    }
  }

  lemma AllInTimeStep(limits: Limits, entries: seq<Entry>, e: Entry)
    ensures AllInTime(limits, entries + [e]) <==> AllInTime(limits, entries) && InTime(limits, entries, e)
  {
    var all := entries + [e];
    assert all[..|entries|] == entries && all[|entries|] == e;
    assert forall i :: 0 <= i < |entries| ==> all[..i] == entries[..i] && all[i] == entries[i];
    if AllInTime(limits, all) {
      assert InTime(limits, all[..|entries|], all[|entries|]);
      forall i | 0 <= i < |entries|
        ensures InTime(limits, entries[..i], entries[i])
      {
        assert InTime(limits, all[..i], all[i]);
      }
    }
  }

  /** For all limits and all names, every record goes to the window of its own kind and source exactly when each came in
      time; the windows are then exactly those. */
  lemma {:induction false} OwnRoutesIff(limits: Limits, entries: seq<Entry>)
    ensures OwnRoutes(Fill(limits, entries), limits, entries) <==> AllInTime(limits, entries)
    ensures AllInTime(limits, entries) ==> OwnKeys(Fill(limits, entries), entries)
    decreases |entries|
  {
    if entries != [] {
      var earlier, e := entries[..|entries| - 1], entries[|entries| - 1];
      assert entries == earlier + [e];
      var t := Fill(limits, earlier);
      OwnRoutesIff(limits, earlier);
      FillIsPartition(limits, earlier);
      FillStep(limits, earlier, e);
      OwnRoutesStep(t, limits, earlier, e);
      AllInTimeStep(limits, earlier, e);
      if AllInTime(limits, earlier) {
        OwnRouteIff(t, limits, earlier, e);
        if InTime(limits, earlier, e) {
          OwnKeysStep(t, limits, earlier, e);
        }
      }
    }
  }

  ghost predicate NoOverflowNames(entries: seq<Entry>) {
    forall i :: 0 <= i < |entries| ==> entries[i].kind != OVERFLOW && entries[i].source != OVERFLOW
  }

  /** With own routes every recorded name is a key, and one key is left for overflow. */
  lemma OwnRecordsFit(t: Table, limits: Limits, entries: seq<Entry>)
    requires NoOverflowNames(entries) && TableBounded(t, limits)
    requires OwnRoutes(t, limits, entries) && AllSettled(t, limits, entries)
    ensures FitsLimits(limits, entries)
  {
    forall kind | kind in Kinds(entries)
      ensures kind in t.Keys - {OVERFLOW} && |SourcesOfKind(entries, kind)| < limits.sources
    {
      var i := RecordOfKind(entries, kind);
      assert Settled(t, limits, entries[i].kind, entries[i].source);
      forall source | source in SourcesOfKind(entries, kind)
        ensures source in t[kind].Keys - {OVERFLOW}
      {
        var j := RecordOfSource(entries, kind, source);
        assert Settled(t, limits, entries[j].kind, entries[j].source);
      }
      Smaller(SourcesOfKind(entries, kind), t[kind].Keys - {OVERFLOW});
    }
    Smaller(Kinds(entries), t.Keys - {OVERFLOW});
  }

  /** Within the limits every record goes to the window of its own kind and source, and no window but those exists; with
      names other than the overflow name it is so only within the limits. */
  lemma OwnWindowsIff(limits: Limits, entries: seq<Entry>)
    requires limits.kinds >= 1 && limits.sources >= 1
    ensures FitsLimits(limits, entries) ==>
              OwnRoutes(Fill(limits, entries), limits, entries) && OwnKeys(Fill(limits, entries), entries)
    ensures NoOverflowNames(entries) ==>
              (OwnRoutes(Fill(limits, entries), limits, entries) <==> FitsLimits(limits, entries))
    ensures FitsLimits(limits, entries) ==> AllInTime(limits, entries)
  {
    OwnRoutesIff(limits, entries);
    var t := Fill(limits, entries);
    if FitsLimits(limits, entries) {
      FillFollows(limits, entries);
      FollowedKeysAreOwn(t, limits, entries);
      OwnKeysRoute(t, limits, entries);
    }
    if NoOverflowNames(entries) && OwnRoutes(t, limits, entries) {
      FillIsBounded(limits, entries);
      FillIsPartition(limits, entries);
      OwnRecordsFit(t, limits, entries);
    }
  }

  /** The records of one kind and source. */
  function OwnOps(entries: seq<Entry>, kind: string, source: string): seq<Op> {
    if entries == [] then []
    else
      var e := entries[|entries| - 1];
      OwnOps(entries[..|entries| - 1], kind, source) + if e.kind == kind && e.source == source then [e.op] else []
  }

  lemma {:induction false} OwnSelected(t: Table, limits: Limits, entries: seq<Entry>, kind: string, source: string)
    requires OwnRoutes(t, limits, entries)
    ensures Selected(t, limits, entries, (kind, source)) == OwnOps(entries, kind, source)
    decreases |entries|
  {
    if entries != [] {
      OwnSelected(t, limits, entries[..|entries| - 1], kind, source);
    }
  }

  /** When all records came in time, as they do within the limits, the window of each kind and source holds exactly their
      own records. */
  lemma WindowsAreExact(limits: Limits, entries: seq<Entry>, kind: string, source: string)
    requires AllInTime(limits, entries)
    ensures var t := Fill(limits, entries);
            && (Contains(t, (kind, source)) <==> source in SourcesOfKind(entries, kind))
            && (Contains(t, (kind, source)) ==> t[kind][source] == OwnOps(entries, kind, source))
  {
    OwnRoutesIff(limits, entries);
    FillIsPartition(limits, entries);
    ExactWindow(Fill(limits, entries), limits, entries, kind, source);
  }

  lemma ExactWindow(t: Table, limits: Limits, entries: seq<Entry>, kind: string, source: string)
    requires OwnRoutes(t, limits, entries) && OwnKeys(t, entries) && Partition(t, limits, entries)
    ensures Contains(t, (kind, source)) <==> source in SourcesOfKind(entries, kind)
    ensures Contains(t, (kind, source)) ==> t[kind][source] == OwnOps(entries, kind, source)
  {
    OwnSelected(t, limits, entries, kind, source);
    if source in SourcesOfKind(entries, kind) {
      var i := RecordOfSource(entries, kind, source);
      KindIn(entries, i);
    }
  }

  // ---- Queries for what was never recorded ----

  lemma OwnKindSources(t: Table, limits: Limits, entries: seq<Entry>, kind: string)
    requires kind != OVERFLOW && kind in t
    ensures SourcesUnder(t, limits, entries, kind) == SourcesOfKind(entries, kind)
  {
    forall i | 0 <= i < |entries|
      ensures Route(t, limits, entries[i].kind, entries[i].source).0 == kind <==> entries[i].kind == kind
    {
    }
    UnderIsOfKind(t, limits, entries, kind);
  }

  /** The kind whose windows a query looks at. */
  function Home(t: Table, kind: string): string {
    if kind in t then kind else OVERFLOW
  }

  /** Some record has filled an overflow key: by its name, or because the names reached the limit. */
  ghost predicate Overflows(names: set<string>, limit: nat) {
    OVERFLOW in names || |names| >= limit
  }

  /** For all limits, records and queries: a query reads a window exactly when its kind has a key or the kinds overflow,
      and under the kind looked at its source was recorded or the sources overflow. */
  lemma QueryReadsIff(limits: Limits, entries: seq<Entry>, kind: string, source: string)
    requires limits.kinds >= 1 && limits.sources >= 1
    ensures var t := Fill(limits, entries);
            var under := SourcesUnder(t, limits, entries, Home(t, kind));
            Existing(t, kind, source).Some? <==>
            && (kind in t || Overflows(Kinds(entries), limits.kinds))
            && (source in under || Overflows(under, limits.sources))
  {
    FillFollows(limits, entries);
    FollowedRead(Fill(limits, entries), limits, entries, kind, source);
  }

  lemma FollowedRead(t: Table, limits: Limits, entries: seq<Entry>, kind: string, source: string)
    requires Follows(t, limits, entries)
    ensures var under := SourcesUnder(t, limits, entries, Home(t, kind));
            Existing(t, kind, source).Some? <==>
            && (kind in t || Overflows(Kinds(entries), limits.kinds))
            && (source in under || Overflows(under, limits.sources))
    ensures var under := SourcesUnder(t, limits, entries, Home(t, kind));
            Existing(t, kind, source).Some? && source !in under ==> Existing(t, kind, source).value.1 == OVERFLOW
  {
    KeysLookup(t.Keys, Kinds(entries), kind, limits.kinds);
    var home := Home(t, kind);
    if home in t {
      KeysLookup(t[home].Keys, SourcesUnder(t, limits, entries, home), source, limits.sources);
    }
  }

  /** A query for a kind and source that were never recorded still reads a window exactly when the kind has a key and its
      sources overflow; or the kind has no key, the kinds overflow, and under the overflow kind the same source was
      recorded or the sources overflow. The window is then an overflow window, filled by others. */
  lemma UnrecordedReadIff(limits: Limits, entries: seq<Entry>, kind: string, source: string)
    requires limits.kinds >= 1 && limits.sources >= 1 && source !in SourcesOfKind(entries, kind)
    ensures var t := Fill(limits, entries);
            var spilled := SourcesUnder(t, limits, entries, OVERFLOW);
            Existing(t, kind, source).Some? <==>
            if kind in t && kind != OVERFLOW then Overflows(SourcesOfKind(entries, kind), limits.sources)
            else Overflows(Kinds(entries), limits.kinds) && (source in spilled || Overflows(spilled, limits.sources))
    ensures var read := Existing(Fill(limits, entries), kind, source);
            read.Some? ==> read.value.0 == OVERFLOW || read.value.1 == OVERFLOW
  {
    var t := Fill(limits, entries);
    FillFollows(limits, entries);
    FollowedRead(t, limits, entries, kind, source);
    KeysLookup(t.Keys, Kinds(entries), kind, limits.kinds);
    if kind != OVERFLOW && kind in t {
      OwnKindSources(t, limits, entries, kind);
    }
  }

  /** With room for one kind and one source everything overflows, and a query for any other pair reads it; with room for
      two it reads nothing. */
  lemma UnrecordedReadExample(op: Op)
    ensures Existing(Fill(Limits(1, 1), [Entry("read", "pv", op)]), "write", "grid") == Some((OVERFLOW, OVERFLOW))
    ensures Existing(Fill(Limits(2, 2), [Entry("read", "pv", op)]), "write", "grid") == None
  {
    FillStep(Limits(1, 1), [], Entry("read", "pv", op));
    FillStep(Limits(2, 2), [], Entry("read", "pv", op));
    assert [] + [Entry("read", "pv", op)] == [Entry("read", "pv", op)];
    assert "read" != OVERFLOW && "write" != OVERFLOW && "read" != "write";
  }
}
