/** The generic Modbus charger backend: its caches, and enabling by writing a current. */
module Charger {
  import opened Common
  import Registers

  datatype Phase = P1 | P1P2 | P1P2P3

  // ---- Profiles ----

  /** What a charger profile decides here. A phase write lists the selections it can express. */
  datatype Profile = Profile(
    supported: seq<Phase>, phaseWrite: Option<set<Phase>>, directEnable: bool, usesCurrentWrite: bool,
    defaultCurrent: real)

  /** The selections kept by a profile: the configured ones that the phase write can express, else all that it can
      express (in the order of its map), else P1. */
  function SupportedPhases(configured: seq<Phase>, phaseMap: Option<seq<Phase>>): (supported: seq<Phase>)
    requires configured != []
    ensures supported != []
  {
    match phaseMap
    case None => configured
    case Some(keys) =>
      var available := Kept(configured, keys);
      if available != [] then available else if keys != [] then keys else [P1]
  }

  function Kept(configured: seq<Phase>, keys: seq<Phase>): (kept: seq<Phase>)
    ensures forall p :: p in kept <==> p in configured && p in keys
  {
    if configured == [] then []
    else (if configured[0] in keys then [configured[0]] else []) + Kept(configured[1..], keys)
  }

  lemma {:induction false} KeptInOrder(a: seq<Phase>, b: seq<Phase>, keys: seq<Phase>)
    ensures Kept(a + b, keys) == Kept(a, keys) + Kept(b, keys)
  {
    if a == [] {
      assert a + b == b;
    } else {
      assert (a + b)[1..] == a[1..] + b && (a + b)[0] == a[0];
      KeptInOrder(a[1..], b, keys);
    }
  }

  lemma KeptOne(phase: Phase, keys: seq<Phase>)
    ensures Kept([phase], keys) == if phase in keys then [phase] else []
  {
    assert [phase][1..] == [];
  }

  /** With a phase map the supported selections are the configured ones that it can express, in their order; when there
      are none, all that it can express, and P1 for an empty map. Without a map they are the configured ones. */
  lemma SupportedMeaning(configured: seq<Phase>, keys: seq<Phase>)
    requires configured != []
    ensures SupportedPhases(configured, None) == configured
    ensures (exists p :: p in configured && p in keys) ==> SupportedPhases(configured, Some(keys)) == Kept(configured, keys)
    ensures (forall p :: p in configured ==> p !in keys) ==>
              SupportedPhases(configured, Some(keys)) == if keys == [] then [P1] else keys
  {
    var kept := Kept(configured, keys);
    if p :| p in configured && p in keys {
      assert p in kept;
    }
    if kept != [] {
      assert kept[0] in kept;
    }
  }

  function DefaultCurrent(configured: Option<real>): (amps: real)
    ensures amps > 0.0
    ensures configured == Some(amps) || amps == 6.0
    ensures configured.Some? && configured.value > 0.0 ==> configured == Some(amps)
  {
    if configured.None? || configured.value <= 0.0 then 6.0 else configured.value
  }

  /** Loading refuses several selections without a phase write, and a charger that cannot be enabled at all. */
  function Load(configured: seq<Phase>, phaseMap: Option<seq<Phase>>, directEnable: bool, usesCurrentWrite: bool,
                defaultCurrent: Option<real>): Option<Profile>
    requires configured != []
  {
    var supported := SupportedPhases(configured, phaseMap);
    if |supported| > 1 && phaseMap.None? then None
    else if !directEnable && !usesCurrentWrite then None
    else
      var phaseWrite := if phaseMap.None? then None else Some(set p | p in phaseMap.value);
      Some(Profile(supported, phaseWrite, directEnable, usesCurrentWrite, DefaultCurrent(defaultCurrent)))
  }

  ghost predicate Sound(p: Profile) {
    && p.supported != [] && p.defaultCurrent > 0.0 && (p.directEnable || p.usesCurrentWrite)
    && (p.phaseWrite.None? ==> |p.supported| == 1)
    && (p.phaseWrite.Some? && p.phaseWrite.value != {} ==> forall s :: s in p.supported ==> s in p.phaseWrite.value)
  }

  /** A loaded profile can always be enabled, and with a nonempty phase map every supported selection is writable. */
  lemma LoadedIsSound(configured: seq<Phase>, phaseMap: Option<seq<Phase>>, directEnable: bool, usesCurrentWrite: bool,
                      defaultCurrent: Option<real>)
    requires configured != []
    requires Load(configured, phaseMap, directEnable, usesCurrentWrite, defaultCurrent).Some?
    ensures Sound(Load(configured, phaseMap, directEnable, usesCurrentWrite, defaultCurrent).value)
  {
    if phaseMap.Some? {
      var keys := phaseMap.value;
      if keys == [] {
        assert (set p | p in keys) == {};
      }
    }
  }

  /** Loading succeeds exactly for a profile with one selection or a phase map, and with a way to enable; it keeps what is
      configured, with a positive default current. */
  lemma LoadMeaning(configured: seq<Phase>, phaseMap: Option<seq<Phase>>, directEnable: bool, usesCurrentWrite: bool,
                    defaultCurrent: Option<real>)
    requires configured != []
    ensures var loaded := Load(configured, phaseMap, directEnable, usesCurrentWrite, defaultCurrent);
            && (loaded.Some? <==> (phaseMap.Some? || |configured| == 1) && (directEnable || usesCurrentWrite))
            && (loaded.Some? ==>
                  var p := loaded.value;
                  && p.supported == SupportedPhases(configured, phaseMap)
                  && p.directEnable == directEnable && p.usesCurrentWrite == usesCurrentWrite
                  && p.defaultCurrent == (if defaultCurrent.Some? && defaultCurrent.value > 0.0
                                          then defaultCurrent.value else 6.0)
                  && (p.phaseWrite.Some? <==> phaseMap.Some?)
                  && (phaseMap.Some? ==> forall s :: s in p.phaseWrite.value <==> s in phaseMap.value))
  {
  }

  // ---- Calls and caches ----

  datatype Caches = Caches(enabled: Option<bool>, current: Option<real>, resume: Option<real>, phase: Phase)

  /** What a read of the device yields: a field that the profile does not have is absent; a current that is no finite
      number and a phase text that names no selection are None. */
  datatype Reading = Reading(enabled: Option<bool>, current: Option<Option<real>>, phase: Option<Option<Phase>>)

  /** One call of the backend and how the device takes it. A phase text that names no selection is None. */
  datatype Call =
    | Read(reading: Option<Reading>)
    | SetCurrent(amps: real, accepted: bool)
    | SetEnabled(on: bool, accepted: bool)
    | SetPhase(selection: Option<Phase>, accepted: bool)

  /** What reached the device or came from it. */
  datatype Effect =
    | CurrentWritten(amps: real)
    | EnableWritten(on: bool)
    | PhaseWritten(selection: Phase)
    | StateRead(reading: Reading)
    | Refused

  function Supported(p: Profile, selection: Phase): Phase
    requires p.supported != []
  {
    if selection in p.supported then selection else p.supported[0]
  }

  function Emulated(p: Profile): bool { !p.directEnable && p.usesCurrentWrite }

  function PositiveOf(amps: Option<real>): Option<real> {
    if amps.Some? && amps.value > 0.0 then amps else None
  }

  /** The current that stands for on or off. */
  function EnableTarget(p: Profile, c: Caches, on: bool): real {
    if !on then 0.0
    else if PositiveOf(c.resume).Some? then c.resume.value
    else if PositiveOf(c.current).Some? then c.current.value
    else p.defaultCurrent
  }

  function WithCurrent(c: Caches, amps: real): Caches {
    c.(current := Some(amps), resume := if amps > 0.0 then Some(amps) else c.resume)
  }

  /** The current of a reading: the cached one when the field is absent or not a number. */
  function CurrentRead(c: Caches, reading: Reading): Option<real> {
    if reading.current.Some? && reading.current.value.Some? then reading.current.value else c.current
  }

  /** The on/off state of a reading: without a field the cached one, and without either whether a current flows. */
  function EnabledRead(p: Profile, c: Caches, reading: Reading): Option<bool> {
    var enabled := if reading.enabled.Some? then reading.enabled else c.enabled;
    var current := CurrentRead(c, reading);
    if enabled.Some? || !p.usesCurrentWrite || current.None? then enabled else Some(current.value > 0.0)
  }

  function PhaseRead(p: Profile, c: Caches, reading: Reading): Phase
    requires p.supported != []
  {
    match reading.phase
    case None => Supported(p, c.phase)
    case Some(None) => Supported(p, c.phase)
    case Some(Some(selection)) => Supported(p, selection)
  }

  function Next(p: Profile, c: Caches, call: Call): (r: (Caches, Effect))
    requires p.supported != []
  {
    match call
    case Read(None) => (c, Refused)
    case Read(Some(reading)) =>
      var current := CurrentRead(c, reading);
      var resume := if PositiveOf(current).Some? then current else c.resume;
      (Caches(EnabledRead(p, c, reading), current, resume, PhaseRead(p, c, reading)), StateRead(reading))
    case SetCurrent(amps, accepted) =>
      if !accepted then (c, Refused) else (WithCurrent(c, amps), CurrentWritten(amps))
    case SetEnabled(on, accepted) =>
      if !accepted then (c, Refused)
      else if Emulated(p) then
        var amps := EnableTarget(p, c, on);
        (WithCurrent(c.(enabled := Some(on)), amps), CurrentWritten(amps))
      else if !p.directEnable then (c, Refused)
      else (c.(enabled := Some(on)), EnableWritten(on))
    case SetPhase(selection, accepted) =>
      var chosen := if selection.Some? then selection.value else p.supported[0];
      if chosen !in p.supported || p.phaseWrite.None? || chosen !in p.phaseWrite.value || !accepted then (c, Refused)
      else (c.(phase := chosen), PhaseWritten(chosen))
  }

  function Start(p: Profile, requested: Option<Phase>): Caches
    requires p.supported != []
  {
    Caches(None, None, None, Supported(p, if requested.Some? then requested.value else P1))
  }

  // ---- The backend object ----

  class Backend {
    const profile: Profile
    var enabledCache: Option<bool>
    var currentCache: Option<real>
    var resumeCache: Option<real>
    var phaseCache: Phase

    ghost predicate Valid()
      reads this
    {
      Sound(profile) && phaseCache in profile.supported
    }

    ghost function State(): Caches
      reads this
    {
      Caches(enabledCache, currentCache, resumeCache, phaseCache)
    }

    constructor (profile: Profile, requested: Option<Phase>)
      requires Sound(profile)
      ensures Valid() && this.profile == profile && State() == Start(profile, requested)
    {
      this.profile := profile;
      enabledCache, currentCache, resumeCache := None, None, None;
      var phase := if requested.Some? then requested.value else P1;
      phaseCache := if phase in profile.supported then phase else profile.supported[0];
    }

    /** A reading fails as a whole: then no cache changes. */
    method ReadChargerState(reading: Option<Reading>) returns (state: Option<Caches>)
      requires Valid()
      modifies this
      ensures Valid() && State() == Next(profile, old(State()), Read(reading)).0
      ensures state == if reading.None? then None else Some(State())
    {
      if reading.None? {
        return None;
      }
      var enabled := if reading.value.enabled.Some? then reading.value.enabled else enabledCache;
      var current := currentCache;
      if reading.value.current.Some? && reading.value.current.value.Some? {
        current := reading.value.current.value;
      }
      var phase := phaseCache;
      if reading.value.phase.Some? && reading.value.phase.value.Some? {
        phase := reading.value.phase.value.value;
      }
      if phase !in profile.supported {
        phase := profile.supported[0];
      }
      if enabled.None? && profile.usesCurrentWrite && current.Some? {
        enabled := Some(current.value > 0.0);
      }
      enabledCache := enabled;
      currentCache := current;
      if current.Some? && current.value > 0.0 {
        resumeCache := current;
      }
      phaseCache := phase;
      state := Some(Caches(enabledCache, currentCache, resumeCache, phaseCache));
    }

    method EnabledTargetCurrent(on: bool) returns (amps: real)
      ensures amps == EnableTarget(profile, State(), on)
    {
      if !on {
        return 0.0;
      }
      if resumeCache.Some? && resumeCache.value > 0.0 {
        return resumeCache.value;
      }
      if currentCache.Some? && currentCache.value > 0.0 {
        return currentCache.value;
      }
      amps := profile.defaultCurrent;
    }

    method SetEnabledState(on: bool, accepted: bool) returns (effect: Effect)
      requires Valid()
      modifies this
      ensures Valid() && (State(), effect) == Next(profile, old(State()), SetEnabled(on, accepted))
    {
      if !profile.directEnable && profile.usesCurrentWrite {
        var target := EnabledTargetCurrent(on);
        if !accepted {
          return Refused;
        }
        enabledCache := Some(on);
        currentCache := Some(target);
        if target > 0.0 {
          resumeCache := Some(target);
        }
        return CurrentWritten(target);
      }
      if !accepted {
        return Refused;
      }
      enabledCache := Some(on);
      effect := EnableWritten(on);
    }

    method SetCurrentAmps(amps: real, accepted: bool) returns (effect: Effect)
      requires Valid()
      modifies this
      ensures Valid() && (State(), effect) == Next(profile, old(State()), SetCurrent(amps, accepted))
    {
      if !accepted {
        return Refused;
      }
      currentCache := Some(amps);
      if amps > 0.0 {
        resumeCache := Some(amps);
      }
      effect := CurrentWritten(amps);
    }

    method SetPhaseSelection(selection: Option<Phase>, accepted: bool) returns (effect: Effect)
      requires Valid()
      modifies this
      ensures Valid() && (State(), effect) == Next(profile, old(State()), SetPhase(selection, accepted))
    {
      var chosen := profile.supported[0];
      if selection.Some? {
        chosen := selection.value;
      }
      if chosen !in profile.supported {
        return Refused;
      }
      if profile.phaseWrite.None? || chosen !in profile.phaseWrite.value || !accepted {
        return Refused;
      }
      phaseCache := chosen;
      effect := PhaseWritten(chosen);
    }
  }

  // ---- Runs ----

  /** The caches after some calls. */
  function After(p: Profile, start: Caches, calls: seq<Call>): Caches
    requires p.supported != []
    decreases |calls|
  {
    if calls == [] then start
    else Next(p, After(p, start, calls[..|calls| - 1]), calls[|calls| - 1]).0
  }

  /** What each call did to the device. */
  function Effects(p: Profile, start: Caches, calls: seq<Call>): (effects: seq<Effect>)
    requires p.supported != []
    ensures |effects| == |calls|
    decreases |calls|
  {
    if calls == [] then []
    else
      var earlier := calls[..|calls| - 1];
      Effects(p, start, earlier) + [Next(p, After(p, start, earlier), calls[|calls| - 1]).1]
  }

  /** The current that was written or read, if any. */
  function CurrentOf(effect: Effect): Option<real> {
    match effect
    case CurrentWritten(amps) => Some(amps)
    case StateRead(reading) => if reading.current.Some? then reading.current.value else None
    case _ => None
  }

  /** The last current that was written to the device or read from it. */
  function LatestCurrent(effects: seq<Effect>): Option<real> {
    if effects == [] then None
    else if CurrentOf(effects[|effects| - 1]).Some? then CurrentOf(effects[|effects| - 1])
    else LatestCurrent(effects[..|effects| - 1])
  }

  /** The last positive one. */
  function LatestPositive(effects: seq<Effect>): Option<real> {
    if effects == [] then None
    else if PositiveOf(CurrentOf(effects[|effects| - 1])).Some? then CurrentOf(effects[|effects| - 1])
    else LatestPositive(effects[..|effects| - 1])
  }

  ghost predicate Positive(amps: Option<real>) { amps.Some? ==> amps.value > 0.0 }

  ghost predicate Resumable(p: Profile, c: Caches) {
    Positive(c.resume) && (PositiveOf(c.current).Some? ==> c.resume == c.current) && c.phase in p.supported
  }

  lemma HistoryStep(p: Profile, c: Caches, call: Call)
    requires p.supported != [] && Resumable(p, c)
    ensures var (next, effect) := Next(p, c, call);
            && Resumable(p, next)
            && next.current == (if CurrentOf(effect).Some? then CurrentOf(effect) else c.current)
            && next.resume == (if PositiveOf(CurrentOf(effect)).Some? then CurrentOf(effect) else c.resume)
  {
  }

  /** In every run, whatever failed in between: the current cache is the last current written or read, the resume
      cache the last positive one, and the cached phase selection is supported. */
  lemma {:induction false} CachesAreHistory(p: Profile, requested: Option<Phase>, calls: seq<Call>)
    requires p.supported != []
    ensures var c := After(p, Start(p, requested), calls);
            var effects := Effects(p, Start(p, requested), calls);
            && c.current == LatestCurrent(effects) && c.resume == LatestPositive(effects)
            && Resumable(p, c)
    decreases |calls|
  {
    if calls != [] {
      var earlier := calls[..|calls| - 1];
      CachesAreHistory(p, requested, earlier);
      HistoryStep(p, After(p, Start(p, requested), earlier), calls[|calls| - 1]);
      var effects := Effects(p, Start(p, requested), calls);
      assert effects[..|effects| - 1] == Effects(p, Start(p, requested), earlier);
    }
  }

  /** Enabling by current, after any run: what is written is the most recent positive current that was ever written or
      read, and otherwise the positive default; switching off writes zero. */
  lemma EnableWritesLatestPositive(p: Profile, requested: Option<Phase>, calls: seq<Call>)
    requires Sound(p) && Emulated(p)
    ensures var start := Start(p, requested);
            var latest := LatestPositive(Effects(p, start, calls));
            var amps := if latest.Some? then latest.value else p.defaultCurrent;
            && amps > 0.0
            && Next(p, After(p, start, calls), SetEnabled(true, true)).1 == CurrentWritten(amps)
            && Next(p, After(p, start, calls), SetEnabled(false, true)).1 == CurrentWritten(0.0)
  {
    CachesAreHistory(p, requested, calls);
  }

  /** What each call of a run does to the device, whatever happened before: a successful reading is read, an accepted
      current goes out as it is, an accepted enable call of a directly enabled charger delivers exactly the commanded
      state, and without a register for it a current: zero for off, else the latest positive one or the default. An
      accepted phase call delivers the selection it names, or the first supported one when it names none, if that is
      supported and writable. Nothing else reaches the device. */
  lemma CallsDeliver(p: Profile, requested: Option<Phase>, calls: seq<Call>, k: nat)
    requires Sound(p) && k < |calls|
    ensures var effects := Effects(p, Start(p, requested), calls);
            var latest := LatestPositive(effects[..k]);
            effects[k] == match calls[k]
              case Read(None) => Refused
              case Read(Some(reading)) => StateRead(reading)
              case SetCurrent(amps, accepted) => if accepted then CurrentWritten(amps) else Refused
              case SetEnabled(on, accepted) =>
                if !accepted then Refused
                else if p.directEnable then EnableWritten(on)
                else if !on then CurrentWritten(0.0)
                else CurrentWritten(if latest.Some? then latest.value else p.defaultCurrent)
              case SetPhase(selection, accepted) =>
                var named := if selection.Some? then selection.value else p.supported[0];
                if accepted && named in p.supported && p.phaseWrite.Some? && named in p.phaseWrite.value
                then PhaseWritten(named) else Refused
  {
    var start := Start(p, requested);
    EffectsAt(p, start, calls, k);
    CachesAreHistory(p, requested, calls[..k]);
  }

  lemma {:induction false} EffectsAt(p: Profile, start: Caches, calls: seq<Call>, k: nat)
    requires p.supported != [] && k < |calls|
    ensures Effects(p, start, calls)[k] == Next(p, After(p, start, calls[..k]), calls[k]).1
    ensures Effects(p, start, calls)[..k] == Effects(p, start, calls[..k])
    decreases |calls|
  {
    var n := |calls| - 1;
    if k < n {
      EffectsAt(p, start, calls[..n], k);
      assert calls[..n][..k] == calls[..k];
    }
    assert Effects(p, start, calls) == Effects(p, start, calls[..n]) + [Next(p, After(p, start, calls[..n]), calls[n]).1];
  }

  /** The on/off state that some calls with their effects make known: the last one commanded and delivered or read from
      the state field. As long as there is none, a charger controlled by its current is on as of the first successful
      reading with a known current, if that is positive. */
  function KnownEnabled(p: Profile, calls: seq<Call>, effects: seq<Effect>): Option<bool>
    requires |calls| == |effects|
  {
    if calls == [] then None
    else
      var n := |calls| - 1;
      var before := KnownEnabled(p, calls[..n], effects[..n]);
      match (calls[n], effects[n])
      case (SetEnabled(on, _), EnableWritten(_)) => Some(on)
      case (SetEnabled(on, _), CurrentWritten(_)) => Some(on)
      case (_, StateRead(reading)) =>
        if reading.enabled.Some? then reading.enabled
        else if before.None? && p.usesCurrentWrite && LatestCurrent(effects).Some?
        then Some(LatestCurrent(effects).value > 0.0)
        else before
      case _ => before
  }

  /** In every run the enabled cache is the on/off state that is known. */
  lemma {:induction false} EnabledIsKnown(p: Profile, requested: Option<Phase>, calls: seq<Call>)
    requires Sound(p)
    ensures After(p, Start(p, requested), calls).enabled == KnownEnabled(p, calls, Effects(p, Start(p, requested), calls))
    decreases |calls|
  {
    if calls != [] {
      var n := |calls| - 1;
      var start := Start(p, requested);
      var effects := Effects(p, start, calls);
      EnabledIsKnown(p, requested, calls[..n]);
      CachesAreHistory(p, requested, calls);
      EffectsAt(p, start, calls, n);
      EnabledStep(p, After(p, start, calls[..n]), calls[n]);
    }
  }

  lemma EnabledStep(p: Profile, c: Caches, call: Call)
    requires Sound(p)
    ensures var (next, effect) := Next(p, c, call);
            next.enabled ==
            match (call, effect)
            case (SetEnabled(on, _), EnableWritten(_)) => Some(on)
            case (SetEnabled(on, _), CurrentWritten(_)) => Some(on)
            case (_, StateRead(reading)) =>
              if reading.enabled.Some? then reading.enabled
              else if c.enabled.None? && p.usesCurrentWrite && next.current.Some? then Some(next.current.value > 0.0)
              else c.enabled
            case _ => c.enabled
  {
  }

  /** The last state that was written to the enable register or read from the state field. */
  function LatestEnabled(effects: seq<Effect>): Option<bool> {
    if effects == [] then None
    else
      match effects[|effects| - 1]
      case EnableWritten(on) => Some(on)
      case StateRead(reading) =>
        if reading.enabled.Some? then reading.enabled else LatestEnabled(effects[..|effects| - 1])
      case _ => LatestEnabled(effects[..|effects| - 1])
  }

  /** For a directly enabled charger that is the last state written to the enable register or read from the state field,
      if there is any; without one nothing is known unless the current can be written. */
  lemma {:induction false} DirectlyEnabledIsLatest(p: Profile, requested: Option<Phase>, calls: seq<Call>)
    requires Sound(p) && p.directEnable
    ensures var effects := Effects(p, Start(p, requested), calls);
            var enabled := After(p, Start(p, requested), calls).enabled;
            && (LatestEnabled(effects).Some? ==> enabled == LatestEnabled(effects))
            && (!p.usesCurrentWrite ==> enabled == LatestEnabled(effects))
    decreases |calls|
  {
    if calls != [] {
      var n := |calls| - 1;
      var start := Start(p, requested);
      DirectlyEnabledIsLatest(p, requested, calls[..n]);
      EffectsAt(p, start, calls, n);
      EnabledStep(p, After(p, start, calls[..n]), calls[n]);
      DirectStep(p, After(p, start, calls[..n]), calls[n]);
    }
  }

  lemma DirectStep(p: Profile, c: Caches, call: Call)
    requires Sound(p) && p.directEnable
    ensures var effect := Next(p, c, call).1;
            call.SetEnabled? ==> effect == if call.accepted then EnableWritten(call.on) else Refused
  {
  }

  /** The phase selection that some effects make known: the last one written or, if supported, read; a reading that names
      an unsupported one means the first supported one. */
  function KnownPhase(p: Profile, requested: Option<Phase>, effects: seq<Effect>): Phase
    requires p.supported != []
  {
    if effects == [] then
      if requested.Some? && requested.value in p.supported then requested.value
      else if requested.None? && P1 in p.supported then P1
      else p.supported[0]
    else
      match effects[|effects| - 1]
      case PhaseWritten(selection) => selection
      case StateRead(Reading(_, _, Some(Some(selection)))) =>
        if selection in p.supported then selection else p.supported[0]
      case _ => KnownPhase(p, requested, effects[..|effects| - 1])
  }

  /** In every run the phase cache is the selection that is known. */
  lemma {:induction false} PhaseIsKnown(p: Profile, requested: Option<Phase>, calls: seq<Call>)
    requires Sound(p)
    ensures After(p, Start(p, requested), calls).phase == KnownPhase(p, requested, Effects(p, Start(p, requested), calls))
    decreases |calls|
  {
    if calls != [] {
      var n := |calls| - 1;
      var start := Start(p, requested);
      PhaseIsKnown(p, requested, calls[..n]);
      CachesAreHistory(p, requested, calls[..n]);
      EffectsAt(p, start, calls, n);
      PhaseStep(p, After(p, start, calls[..n]), calls[n]);
    }
  }

  lemma PhaseStep(p: Profile, c: Caches, call: Call)
    requires Sound(p) && c.phase in p.supported
    ensures var (next, effect) := Next(p, c, call);
            next.phase ==
            match effect
            case PhaseWritten(selection) => selection
            case StateRead(Reading(_, _, Some(Some(selection)))) =>
              if selection in p.supported then selection else p.supported[0]
            case _ => c.phase
  {
  }

  ghost predicate Pausing(call: Call) {
    match call
    case Read(reading) => reading.Some? && reading.value.current.Some? ==> !PositiveOf(reading.value.current.value).Some?
    case SetCurrent(amps, accepted) => accepted ==> amps <= 0.0
    case SetEnabled(on, accepted) => accepted ==> !on
    case SetPhase(_, _) => true
  }

  /** Off and on again: after a pause of any length in which no positive current is written or read, the charger
      resumes with the current it had before. */
  lemma {:induction false} PauseKeepsResume(p: Profile, c: Caches, calls: seq<Call>)
    requires p.supported != [] && Emulated(p)
    requires !PositiveOf(c.current).Some? && forall k :: 0 <= k < |calls| ==> Pausing(calls[k])
    ensures After(p, c, calls).resume == c.resume && !PositiveOf(After(p, c, calls).current).Some?
    ensures EnableTarget(p, After(p, c, calls), true) == EnableTarget(p, c, true)
    decreases |calls|
  {
    if calls != [] {
      PauseKeepsResume(p, c, calls[..|calls| - 1]);
      assert Pausing(calls[|calls| - 1]);
    }
  }

  ghost predicate SilentOnEnabled(call: Call) {
    && !(call.SetEnabled? && call.accepted)
    && (call.Read? && call.reading.Some? ==> call.reading.value.enabled.None?)
  }

  /** Without a state field the on/off state is inferred from a current only once: from then on only an accepted
      enable call changes it, whatever currents are read. */
  lemma {:induction false} EnabledIsInferredOnce(p: Profile, c: Caches, calls: seq<Call>)
    requires p.supported != [] && c.enabled.Some? && forall k :: 0 <= k < |calls| ==> SilentOnEnabled(calls[k])
    ensures After(p, c, calls).enabled == c.enabled
    decreases |calls|
  {
    if calls != [] {
      EnabledIsInferredOnce(p, c, calls[..|calls| - 1]);
      assert SilentOnEnabled(calls[|calls| - 1]);
    }
  }

  /** The rounded value of a current is zero exactly when the scaled current is within one half of zero. */
  lemma RawZeroIff(amps: real, scale: real)
    ensures Registers.RawOf(amps, scale) == 0 <==> -0.5 <= amps * Registers.WriteScale(scale) <= 0.5
  {
    RoundError(amps * Registers.WriteScale(scale));
  }

  /** The registers written for a current read as zero. */
  ghost predicate WritesZero(amps: real, t: Registers.DataType, scale: real, order: Registers.WordOrder) {
    var words := Registers.Encode(Registers.RawOf(amps, scale), t, order);
    words.Ok? && Registers.Decode(words.value, t, order) == Ok(0)
  }

  /** A current reaches the device as zero exactly when its scaled value is within one half of zero, or, in a sixteen-bit
      register, rounds to any multiple of 65536. So a positive current can do so, small or large; among those that fit
      the register only small ones do. */
  lemma ZeroRegisterIff(amps: real, t: Registers.DataType, scale: real, order: Registers.WordOrder)
    ensures WritesZero(amps, t, scale, order) <==>
            if t == Registers.Uint16 || t == Registers.Int16 then Registers.RawOf(amps, scale) % 0x10000 == 0
            else -0.5 <= amps * Registers.WriteScale(scale) <= 0.5
    ensures Registers.Fits(t, Registers.RawOf(amps, scale)) ==>
              (WritesZero(amps, t, scale, order) <==> -0.5 <= amps * Registers.WriteScale(scale) <= 0.5)
  {
    RawZeroIff(amps, scale);
    ZeroWordsIff(Registers.RawOf(amps, scale), t, order);
  }

  lemma ZeroWordsIff(raw: int, t: Registers.DataType, order: Registers.WordOrder)
    ensures var words := Registers.Encode(raw, t, order);
            words.Ok? && Registers.Decode(words.value, t, order) == Ok(0) <==>
            if t == Registers.Uint16 || t == Registers.Int16 then raw % 0x10000 == 0 else raw == 0
    ensures Registers.Fits(t, raw) && (t == Registers.Uint16 || t == Registers.Int16) ==>
              (raw % 0x10000 == 0 <==> raw == 0)
  {
    Registers.DecodeAfterEncode(raw, t, order);
  }

  /** 0.4 A and 65.536 A both reach a sixteen-bit register as zero, at scales 1 and 1000. */
  lemma PositiveCurrentsWriteZero(order: Registers.WordOrder)
    ensures WritesZero(0.4, Registers.Uint16, 1.0, order)
    ensures WritesZero(65.536, Registers.Uint16, 1000.0, order) && WritesZero(65.536, Registers.Int16, 1000.0, order)
  {
    ZeroRegisterIff(0.4, Registers.Uint16, 1.0, order);
    ZeroRegisterIff(65.536, Registers.Uint16, 1000.0, order);
    ZeroRegisterIff(65.536, Registers.Int16, 1000.0, order);
  }
}
