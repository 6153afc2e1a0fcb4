/** The gateway's value cache: what an entry remembers of its history, and what an unchanged sequence number promises. */
module Cache {
  import opened Common

  /** A JSON value. Truth values are the numbers 0 and 1, as the comparison of old and new values sees them. */
  datatype Json = Null | Number(x: real) | Text(s: string) | Items(items: seq<Json>) | Object(fields: map<string, Json>)

  datatype Kind = ExternalRead | LocalOwned | Static | Diagnostic

  datatype SourceState = Active | Unavailable | Failing

  datatype Metadata = Metadata(
    source: string, status: string, confidence: real, lastError: string, now: real, monotonic: real, kind: Kind,
    sourceState: SourceState, staleAfter: Option<real>, confirmed: bool, reason: string)

  datatype Failure = Failure(
    source: string, error: string, status: string, sourceState: SourceState, now: real, kind: Option<Kind>,
    retryAfter: Option<real>)

  datatype Entry = Entry(
    value: Json, source: string, changedAt: real, confirmedAt: real, confirmedMonotonic: real, updatedAt: real,
    updatedMonotonic: real, errorAt: Option<real>, age: real, status: string, lastError: string, confidence: real,
    kind: Kind, sourceState: SourceState, staleAfter: Option<real>, reason: string, nextProbeAt: Option<real>)

  datatype Store = Store(
    values: map<string, Entry>, services: map<string, real>, registered: bool, serviceName: string, energy: Json,
    sequence: nat)

  datatype Op =
    | Update(key: string, value: Json, metadata: Metadata)
    | MarkUnreadable(key: string, failure: Failure)
    | SetRegistered(registered: bool, name: string)
    | UpdateServices(names: seq<string>, now: real)
    | SetEnergy(payload: Json)

  // ---- One operation ----

  /** What a missing entry counts as: no value, and zero for every time. */
  const BLANK := Entry(Null, "", 0.0, 0.0, 0.0, 0.0, 0.0, None, 0.0, "", "", 0.0, ExternalRead, Active, None, "", None)

  function Previous(values: map<string, Entry>, key: string): Entry {
    if key in values then values[key] else BLANK
  }

  function Updated(previous: Entry, value: Json, m: Metadata): Entry {
    var changed := previous.value != value || previous.changedAt <= 0.0;
    Entry(
      value, m.source,
      if changed then m.now else previous.changedAt,
      if m.confirmed then m.now else previous.confirmedAt,
      if m.confirmed then m.monotonic else previous.confirmedMonotonic,
      m.now, m.monotonic, None, 0.0, m.status, m.lastError, m.confidence, m.kind, m.sourceState, m.staleAfter,
      m.reason, None)
  }

  function Unreadable(previous: Entry, f: Failure): Entry {
    previous.(
      source := f.source, errorAt := Some(f.now), age := Max(0.0, f.now - previous.updatedAt), status := f.status,
      lastError := f.error, confidence := 0.0, kind := if f.kind.Some? then f.kind.value else previous.kind,
      sourceState := f.sourceState, reason := "",
      nextProbeAt := if f.retryAfter.Some? then Some(f.now + Max(0.0, f.retryAfter.value)) else None)
  }

  function Seen(names: seq<string>, now: real): map<string, real> {
    map n | n in names :: now
  }

  function Step(c: Store, op: Op): Store {
    match op
    case Update(key, value, m) =>
      c.(values := c.values[key := Updated(Previous(c.values, key), value, m)], sequence := c.sequence + 1)
    case MarkUnreadable(key, f) =>
      c.(values := c.values[key := Unreadable(Previous(c.values, key), f)], sequence := c.sequence + 1)
    case SetRegistered(registered, name) =>
      if registered == c.registered && name == c.serviceName then c
      else c.(registered := registered, serviceName := name, sequence := c.sequence + 1)
    case UpdateServices(names, now) => c.(services := Seen(names, now), sequence := c.sequence + 1)
    case SetEnergy(payload) => c.(energy := payload)
  }

  const EMPTY := Store(map[], map[], false, "", Null, 0)

  function After(c: Store, ops: seq<Op>): Store {
    if ops == [] then c else Step(After(c, ops[..|ops| - 1]), ops[|ops| - 1])
  }

  // ---- The store object ----

  class CacheStore {
    var values: map<string, Entry>
    var services: map<string, real>
    var localServiceRegistered: bool
    var localServiceName: string
    var energy: Json
    var sequence: nat

    ghost function State(): Store
      reads this
    {
      Store(values, services, localServiceRegistered, localServiceName, energy, sequence)
    }

    constructor ()
      ensures State() == EMPTY
    {
      values, services, localServiceRegistered, localServiceName, energy, sequence := map[], map[], false, "", Null, 0;
    }

    method UpdateValue(key: string, value: Json, details: Metadata)
      modifies this
      ensures State() == Step(old(State()), Update(key, value, details))
    {
      var previous := if key in values then values[key] else BLANK;
      var changedAt := previous.changedAt;
      if previous.value != value || changedAt <= 0.0 {
        changedAt := details.now;
      }
      var confirmedAt, confirmedMonotonic := details.now, details.monotonic;
      if !details.confirmed {
        confirmedAt, confirmedMonotonic := previous.confirmedAt, previous.confirmedMonotonic;
      }
      var entry := Entry(
        value, details.source, changedAt, confirmedAt, confirmedMonotonic, details.now, details.monotonic, None, 0.0,
        details.status, details.lastError, details.confidence, details.kind, details.sourceState, details.staleAfter,
        details.reason, None);
      values := values[key := entry];
      sequence := sequence + 1;
    }

    method MarkAsUnreadable(key: string, failure: Failure)
      modifies this
      ensures State() == Step(old(State()), MarkUnreadable(key, failure))
    {
      var current := if key in values then values[key] else BLANK;
      var kind := current.kind;
      if failure.kind.Some? {
        kind := failure.kind.value;
      }
      var entry := Entry(
        current.value, failure.source, current.changedAt, current.confirmedAt, current.confirmedMonotonic,
        current.updatedAt, current.updatedMonotonic, Some(failure.now), Max(0.0, failure.now - current.updatedAt),
        failure.status, failure.error, 0.0, kind, failure.sourceState, current.staleAfter, "", None);
      if failure.retryAfter.Some? {
        entry := entry.(nextProbeAt := Some(failure.now + Max(0.0, failure.retryAfter.value)));
      }
      values := values[key := entry];
      sequence := sequence + 1;
    }

    method SetLocalServiceRegistered(registered: bool, name: string)
      modifies this
      ensures State() == Step(old(State()), SetRegistered(registered, name))
    {
      if registered == localServiceRegistered && name == localServiceName {
        return;
      }
      localServiceRegistered := registered;
      localServiceName := name;
      sequence := sequence + 1;
    }

    method UpdateSeenServices(names: seq<string>, now: real)
      modifies this
      ensures State() == Step(old(State()), UpdateServices(names, now))
    {
      services := map n | n in names :: now;
      sequence := sequence + 1;
    }

    method SetEnergySnapshots(payload: Json)
      modifies this
      ensures State() == Step(old(State()), SetEnergy(payload))
    {
      energy := payload;
    }
  }

  // ---- An entry is a fold of its history ----

  /** The updates of a key, in order. */
  function UpdatesOf(ops: seq<Op>, key: string): seq<Op> {
    if ops == [] then []
    else UpdatesOf(ops[..|ops| - 1], key)
         + if ops[|ops| - 1].Update? && ops[|ops| - 1].key == key then [ops[|ops| - 1]] else []
  }

  predicate Touches(op: Op, key: string) {
    (op.Update? || op.MarkUnreadable?) && op.key == key
  }

  ghost predicate AllUpdates(updates: seq<Op>) {
    forall i :: 0 <= i < |updates| ==> updates[i].Update?
  }

  function LastValue(updates: seq<Op>): Json
    requires AllUpdates(updates)
  {
    if updates == [] then Null else updates[|updates| - 1].value
  }

  /** The time of the last confirmed update, or 0. */
  function LastConfirmed(updates: seq<Op>): real
    requires AllUpdates(updates)
  {
    if updates == [] then 0.0
    else if updates[|updates| - 1].metadata.confirmed then updates[|updates| - 1].metadata.now
    else LastConfirmed(updates[..|updates| - 1])
  }

  /** Where the trailing block of updates with equal values begins. */
  function BlockStart(updates: seq<Op>): (b: nat)
    requires AllUpdates(updates) && updates != []
    ensures b < |updates|
  {
    var n := |updates| - 1;
    if n == 0 || updates[n - 1].value != updates[n].value then n else BlockStart(updates[..n])
  }

  lemma {:induction false} BlockStartMeaning(updates: seq<Op>)
    requires AllUpdates(updates) && updates != []
    ensures var b := BlockStart(updates);
            && (forall i :: b <= i < |updates| ==> updates[i].value == LastValue(updates))
            && (b > 0 ==> updates[b - 1].value != LastValue(updates))
    decreases |updates|
  {
    var n := |updates| - 1;
    if !(n == 0 || updates[n - 1].value != updates[n].value) {
      BlockStartMeaning(updates[..n]);
      forall i | BlockStart(updates) <= i < |updates|
        ensures updates[i].value == LastValue(updates)
      {
        if i < n {
          assert updates[..n][i].value == LastValue(updates[..n]);
        }
      }
    }
  }

  /** What an entry remembers: the last value, when it was last updated and confirmed, and since when it has not
      changed. */
  ghost predicate Remembers(entry: Entry, updates: seq<Op>) {
    && AllUpdates(updates)
    && entry.value == LastValue(updates)
    && entry.updatedAt == (if updates == [] then 0.0 else updates[|updates| - 1].metadata.now)
    && entry.confirmedAt == LastConfirmed(updates)
    && entry.changedAt == (if updates == [] then 0.0 else updates[BlockStart(updates)].metadata.now)
  }

  ghost predicate PositiveTimes(updates: seq<Op>) {
    AllUpdates(updates) && forall i :: 0 <= i < |updates| ==> updates[i].metadata.now > 0.0
  }

  lemma RememberUpdate(previous: Entry, updates: seq<Op>, op: Op)
    requires op.Update? && Remembers(previous, updates) && PositiveTimes(updates + [op])
    ensures Remembers(Updated(previous, op.value, op.metadata), updates + [op])
  {
    var more := updates + [op];
    assert more[..|more| - 1] == updates;
    assert forall i :: 0 <= i < |updates| ==> more[i] == updates[i];
    if updates != [] {
      assert more[|updates| - 1] == updates[|updates| - 1];
      assert more[BlockStart(updates)].metadata.now > 0.0;
    }
  }

  lemma EntryStep(c: Store, op: Op, key: string)
    ensures var (before, after) := (Previous(c.values, key), Previous(Step(c, op).values, key));
            after == if !Touches(op, key) then before
                     else if op.Update? then Updated(before, op.value, op.metadata)
                     else Unreadable(before, op.failure)
    ensures key in Step(c, op).values <==> key in c.values || Touches(op, key)
  {
  }

  /** A key has an entry exactly when it was updated or marked. */
  lemma {:induction false} EntryExistsIff(ops: seq<Op>, key: string)
    ensures key in After(EMPTY, ops).values <==> exists i :: 0 <= i < |ops| && Touches(ops[i], key)
    decreases |ops|
  {
    if ops != [] {
      var n := |ops| - 1;
      EntryExistsIff(ops[..n], key);
      EntryStep(After(EMPTY, ops[..n]), ops[n], key);
      if exists i :: 0 <= i < n && Touches(ops[..n][i], key) {
        var i :| 0 <= i < n && Touches(ops[..n][i], key);
        assert Touches(ops[i], key);
      }
      if i :| 0 <= i < |ops| && Touches(ops[i], key) {
        assert i == n || Touches(ops[..n][i], key);
      }
    }
  }

  /** For any mix of confirmed updates, estimates and failures at positive times, the entry of a key remembers exactly
      its updates; failures and other keys change none of that. */
  lemma {:induction false} EntryIsFold(ops: seq<Op>, key: string)
    requires PositiveTimes(UpdatesOf(ops, key))
    ensures Remembers(Previous(After(EMPTY, ops).values, key), UpdatesOf(ops, key))
    decreases |ops|
  {
    if ops != [] {
      var earlier, op := ops[..|ops| - 1], ops[|ops| - 1];
      var updates := UpdatesOf(earlier, key);
      assert PositiveTimes(updates) by {
        assert forall i :: 0 <= i < |updates| ==> updates[i] == UpdatesOf(ops, key)[i];
      }
      EntryIsFold(earlier, key);
      EntryStep(After(EMPTY, earlier), op, key);
      if op.Update? && op.key == key {
        RememberUpdate(Previous(After(EMPTY, earlier).values, key), updates, op);
      } else {
        assert UpdatesOf(ops, key) == updates;
      }
    }
  }

  // ---- What the last call of a key leaves ----

  /** The updates and failures of a key, in order. */
  function CallsOf(ops: seq<Op>, key: string): (calls: seq<Op>)
    ensures forall i :: 0 <= i < |calls| ==> Touches(calls[i], key)
  {
    if ops == [] then []
    else CallsOf(ops[..|ops| - 1], key) + if Touches(ops[|ops| - 1], key) then [ops[|ops| - 1]] else []
  }

  /** The kind named last: by an update always, by a failure sometimes. */
  function KindNamed(calls: seq<Op>): Kind {
    if calls == [] then ExternalRead
    else
      match calls[|calls| - 1]
      case Update(_, _, m) => m.kind
      case MarkUnreadable(_, Failure(_, _, _, _, _, Some(kind), _)) => kind
      case _ => KindNamed(calls[..|calls| - 1])
  }

  /** The last update, if any. */
  function LastUpdate(calls: seq<Op>): Option<Metadata> {
    if calls == [] then None
    else if calls[|calls| - 1].Update? then Some(calls[|calls| - 1].metadata)
    else LastUpdate(calls[..|calls| - 1])
  }

  function LastConfirmation(calls: seq<Op>): real {
    if calls == [] then 0.0
    else if calls[|calls| - 1].Update? && calls[|calls| - 1].metadata.confirmed then calls[|calls| - 1].metadata.monotonic
    else LastConfirmation(calls[..|calls| - 1])
  }

  /** What an update leaves apart from value and times: everything it says itself, and no error. */
  predicate AsUpdated(e: Entry, m: Metadata) {
    && e.source == m.source && e.status == m.status && e.lastError == m.lastError && e.confidence == m.confidence
    && e.sourceState == m.sourceState && e.reason == m.reason
    && e.errorAt == None && e.nextProbeAt == None && e.age == 0.0
  }

  /** What a failure leaves: its own status, error and source, no confidence, the age of the value that stays, and when
      to try again. */
  predicate AsFailed(e: Entry, f: Failure) {
    && e.source == f.source && e.status == f.status && e.lastError == f.error && e.confidence == 0.0
    && e.sourceState == f.sourceState && e.reason == "" && e.errorAt == Some(f.now)
    && e.age == (if f.now >= e.updatedAt then f.now - e.updatedAt else 0.0)
    && e.nextProbeAt == match f.retryAfter
                        case None => None
                        case Some(wait) => Some(if wait >= 0.0 then f.now + wait else f.now)
  }

  /** An entry as some calls of its key leave it: the kind is the one named last, the monotonic times and the staleness
      limit are those of the last update and the last confirmation, and the rest is as the last call left it. */
  ghost predicate AsReported(e: Entry, calls: seq<Op>) {
    && (forall i :: 0 <= i < |calls| ==> calls[i].Update? || calls[i].MarkUnreadable?)
    && e.kind == KindNamed(calls) && e.confirmedMonotonic == LastConfirmation(calls)
    && e.updatedMonotonic == (if LastUpdate(calls).Some? then LastUpdate(calls).value.monotonic else 0.0)
    && e.staleAfter == (if LastUpdate(calls).Some? then LastUpdate(calls).value.staleAfter else None)
    && (calls != [] ==>
          match calls[|calls| - 1]
          case Update(_, _, m) => AsUpdated(e, m)
          case MarkUnreadable(_, f) => AsFailed(e, f)
          case _ => false)
  }

  lemma ReportUpdate(e: Entry, calls: seq<Op>, op: Op)
    requires AsReported(e, calls) && op.Update?
    ensures AsReported(Updated(e, op.value, op.metadata), calls + [op])
  {
    assert (calls + [op])[..|calls|] == calls;
  }

  lemma ReportFailure(e: Entry, calls: seq<Op>, op: Op)
    requires AsReported(e, calls) && op.MarkUnreadable?
    ensures AsReported(Unreadable(e, op.failure), calls + [op])
  {
    assert (calls + [op])[..|calls|] == calls;
  }

  /** In every run the entry of a key is as the calls of that key leave it. */
  lemma {:induction false} EntryReportsLastCall(ops: seq<Op>, key: string)
    ensures AsReported(Previous(After(EMPTY, ops).values, key), CallsOf(ops, key))
    decreases |ops|
  {
    if ops != [] {
      var earlier, op := ops[..|ops| - 1], ops[|ops| - 1];
      EntryReportsLastCall(earlier, key);
      EntryStep(After(EMPTY, earlier), op, key);
      var e, calls := Previous(After(EMPTY, earlier).values, key), CallsOf(earlier, key);
      if Touches(op, key) && op.Update? {
        ReportUpdate(e, calls, op);
      } else if Touches(op, key) {
        ReportFailure(e, calls, op);
      } else {
        assert CallsOf(ops, key) == calls;
      }
    }
  }

  // ---- What the store holds beside its entries ----

  function LatestRegistration(ops: seq<Op>): (bool, string) {
    if ops == [] then (false, "")
    else if ops[|ops| - 1].SetRegistered? then (ops[|ops| - 1].registered, ops[|ops| - 1].name)
    else LatestRegistration(ops[..|ops| - 1])
  }

  function LatestEnergy(ops: seq<Op>): Json {
    if ops == [] then Null
    else if ops[|ops| - 1].SetEnergy? then ops[|ops| - 1].payload
    else LatestEnergy(ops[..|ops| - 1])
  }

  /** The names seen last, and when. */
  function LatestServices(ops: seq<Op>): (seq<string>, real) {
    if ops == [] then ([], 0.0)
    else if ops[|ops| - 1].UpdateServices? then (ops[|ops| - 1].names, ops[|ops| - 1].now)
    else LatestServices(ops[..|ops| - 1])
  }

  /** How many calls change the contents: each update, failure and service list, and each registration that differs from
      the one before. Energy snapshots never count. */
  function Counted(ops: seq<Op>): nat {
    if ops == [] then 0
    else
      var earlier := ops[..|ops| - 1];
      Counted(earlier) +
      match ops[|ops| - 1]
      case SetRegistered(registered, name) => if LatestRegistration(earlier) == (registered, name) then 0 else 1
      case SetEnergy(_) => 0
      case _ => 1
  }

  /** In every run: registration and energy are those set last, the services are the names seen last with their time, and
      the sequence number counts the calls that change the contents. */
  lemma {:induction false} StoreIsLatest(ops: seq<Op>)
    ensures var c := After(EMPTY, ops);
            && (c.registered, c.serviceName) == LatestRegistration(ops) && c.energy == LatestEnergy(ops)
            && (forall n :: n in c.services <==> n in LatestServices(ops).0)
            && (forall n :: n in c.services ==> c.services[n] == LatestServices(ops).1)
            && c.sequence == Counted(ops)
    decreases |ops|
  {
    if ops != [] {
      StoreIsLatest(ops[..|ops| - 1]);
    }
  }

  // ---- Sequence numbers ----

  /** The same stored values, services and registration. */
  predicate SameContents(a: Store, b: Store) {
    a.values == b.values && a.services == b.services && a.registered == b.registered && a.serviceName == b.serviceName
  }

  /** In every run the sequence number never goes back, and as long as it stays the same so does everything stored; only
      the energy snapshots may differ. */
  lemma {:induction false} SequenceTellsChange(c: Store, ops: seq<Op>)
    ensures After(c, ops).sequence >= c.sequence
    ensures After(c, ops).sequence == c.sequence ==> SameContents(After(c, ops), c)
    decreases |ops|
  {
    if ops != [] {
      SequenceTellsChange(c, ops[..|ops| - 1]);
    }
  }

  lemma {:induction false} AfterSplit(c: Store, first: seq<Op>, rest: seq<Op>)
    ensures After(c, first + rest) == After(After(c, first), rest)
    decreases |rest|
  {
    if rest == [] {
      assert first + rest == first;
    } else {
      var n := |rest| - 1;
      AfterSplit(c, first, rest[..n]);
      assert (first + rest)[..|first + rest| - 1] == first + rest[..n];
    }
  }

  // ---- Projection ----

  datatype Projected = Projected(entry: Entry, age: real, changeAge: real, status: string)

  function Age(at: real, now: real): real {
    if at == 0.0 then 0.0 else Max(0.0, now - at)
  }

  predicate Prefix(name: string, source: string) {
    name + "/" <= source
  }

  predicate IsLocal(e: Entry, serviceName: string) {
    && serviceName != ""
    && (e.kind == LocalOwned || e.kind == Static || (e.kind == Diagnostic && Prefix(serviceName, e.source)))
  }

  function Allowed(e: Entry, defaultStale: real): real {
    if e.staleAfter.Some? then e.staleAfter.value else defaultStale
  }

  function ProjectedStatus(e: Entry, age: real, defaultStale: real, registered: bool, serviceName: string): string {
    if IsLocal(e, serviceName) then
      (if e.status != "fresh" then e.status else if registered then "fresh" else "unavailable")
    else
      var staleAfter := Allowed(e, defaultStale);
      if e.kind == ExternalRead && e.status == "fresh" && staleAfter > 0.0 && age > staleAfter then "stale" else e.status
  }

  function Project(e: Entry, now: real, defaultStale: real, c: Store): Projected {
    var age := Age(e.confirmedAt, now);
    Projected(e, age, Age(e.changedAt, now), ProjectedStatus(e, age, defaultStale, c.registered, c.serviceName))
  }

  function Snapshot(c: Store, now: real, defaultStale: real): map<string, Projected> {
    map key | key in c.values :: Project(c.values[key], now, defaultStale, c)
  }

  /** Two snapshots of a run that carry the same sequence number hold the same contents, and for the same moment they
      project the same. */
  lemma EqualSequencesAgree(ops: seq<Op>, more: seq<Op>, now: real, defaultStale: real)
    ensures var (a, b) := (After(EMPTY, ops), After(EMPTY, ops + more));
            b.sequence == a.sequence ==>
              SameContents(a, b) && Snapshot(a, now, defaultStale) == Snapshot(b, now, defaultStale)
  {
    AfterSplit(EMPTY, ops, more);
    SequenceTellsChange(After(EMPTY, ops), more);
  }

  lemma ExternalStaleIff(e: Entry, now: real, defaultStale: real, c: Store)
    requires e.kind == ExternalRead && e.status == "fresh"
    ensures Project(e, now, defaultStale, c).status == "stale" <==>
            Allowed(e, defaultStale) > 0.0 && e.confirmedAt != 0.0 && now - e.confirmedAt > Allowed(e, defaultStale)
  {
    assert "fresh" != "stale";
  }

  /** When a read from outside, marked fresh, is shown as stale: exactly when some update confirmed it and the last such
      update is longer ago than allowed. Estimates neither refresh nor age it: a value that was never confirmed stays
      fresh for ever. */
  lemma StaleIff(ops: seq<Op>, key: string, now: real, defaultStale: real)
    requires PositiveTimes(UpdatesOf(ops, key)) && key in After(EMPTY, ops).values
    requires var e := After(EMPTY, ops).values[key]; e.kind == ExternalRead && e.status == "fresh"
    ensures var c := After(EMPTY, ops);
            var e := c.values[key];
            var confirmed := LastConfirmed(UpdatesOf(ops, key));
            Project(e, now, defaultStale, c).status == "stale" <==>
            Allowed(e, defaultStale) > 0.0 && confirmed != 0.0 && now - confirmed > Allowed(e, defaultStale)
  {
    EntryIsFold(ops, key);
    ExternalStaleIff(After(EMPTY, ops).values[key], now, defaultStale, After(EMPTY, ops));
  }

  /** Whether an entry belongs to this service itself. */
  predicate OwnEntry(e: Entry, name: string) {
    name != "" &&
    match e.kind
    case LocalOwned => true
    case Static => true
    case Diagnostic => |e.source| > |name| && e.source[..|name|] == name && e.source[|name|] == '/'
    case ExternalRead => false
  }

  /** When the shown status differs from the stored one: an own fresh entry is unavailable exactly while the service is
      not registered, and an external fresh value turns stale; everything else is shown as it is stored. The shown ages
      are the times since the confirmation and since the change, never negative, and zero when there was none. */
  lemma ProjectionMeaning(e: Entry, now: real, defaultStale: real, c: Store)
    ensures var p := Project(e, now, defaultStale, c);
            var limit := if e.staleAfter.Some? then e.staleAfter.value else defaultStale;
            var hidden := e.status == "fresh" && OwnEntry(e, c.serviceName) && !c.registered;
            var stale := e.status == "fresh" && e.kind == ExternalRead && limit > 0.0 && e.confirmedAt != 0.0 &&
                         now - e.confirmedAt > limit;
            && p.entry == e
            && p.status == (if hidden then "unavailable" else if stale then "stale" else e.status)
            && p.age == (if e.confirmedAt == 0.0 || now <= e.confirmedAt then 0.0 else now - e.confirmedAt)
            && p.changeAge == (if e.changedAt == 0.0 || now <= e.changedAt then 0.0 else now - e.changedAt)
  {
    if Prefix(c.serviceName, e.source) {
      assert e.source[|c.serviceName|] == (c.serviceName + "/")[|c.serviceName|];
    }
    if |e.source| > |c.serviceName| && e.source[..|c.serviceName|] == c.serviceName && e.source[|c.serviceName|] == '/' {
      assert c.serviceName + "/" == e.source[..|c.serviceName| + 1];
    }
  }

  /** A snapshot shows every key that has an entry, and nothing else. */
  lemma SnapshotShows(ops: seq<Op>, now: real, defaultStale: real, key: string)
    ensures var c := After(EMPTY, ops);
            && (key in Snapshot(c, now, defaultStale) <==> exists i :: 0 <= i < |ops| && Touches(ops[i], key))
            && (key in c.values ==>
                  Snapshot(c, now, defaultStale)[key] == Project(c.values[key], now, defaultStale, c))
  {
    EntryExistsIff(ops, key);
  }
}
