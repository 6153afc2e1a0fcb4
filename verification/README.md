# Venus EV charger service: verified model

A Dafny model of the parts of the service whose promises only make sense over whole runs.

- **Auto controller.** `AutoController` is the relay controller as it runs: fields updated in place, gate after gate.
  `AutoTable` is the same decision as one flat first-match table, and `AutoDecideRelay` is proved against it for every
  state and every input with a clamped policy and a nonnegative averaging window. `AutoMeaning` says what every answer
  and every remembered value means in inputs, settings and times, `AutoSteps` what single decisions guarantee,
  `AutoRuns` the safety of starts, stops and grid recovery over all runs, `AutoChatter` how often the relay can
  switch, `AutoSmoothing` what samples, smoothed values and hysteresis bits remember. `Policy`, `PolicySettings`,
  `Samples`, `Battery`, `Learning` and `Metrics` supply what the controller relies on.
- **Modbus stack.** `Crc` and `CrcDetection` (bit-serial CRC-16, the loop that computes it, and which errors it
  finds), `CrcDistance` (how far apart two flipped bits must be to hide), `CrcPreset` (what starting from all ones
  means), `ByteLine` (a connection that delivers and takes bytes in arbitrary pieces), `SerialRtu`, `SerialRetry` and
  `Mbap` (framing, retries, ownership of the tty, and which line events are tried again), `Registers` and `Client`
  (codec, scaling, requests and responses), `Charger` (caches and enabling by writing a current).
- **Gateway windows and cache.** `Latency`, `Attribution` with `AttributionNames`, and `Cache` are proved equal to
  simple functions of the full history they have forgotten.

Runs of the controller are sequences of frames: decisions with arbitrary inputs, policy and settings, relay changes, and
interventions from outside that set the mode or clear tracking. Times are arbitrary real numbers; a lemma that needs a
clock which never goes back says so.
Everything the code reads from files, sockets, devices or other modules is an arbitrary input or an arbitrary outcome of
the call: whether a cutover has been confirmed off, the scheduled-night answer, forecasts, learning summaries, the bytes
of a connection, the success of helper commands.

## Where the code decides differently than one might expect

- While inputs are missing, a running relay is stopped by the night lock when the lock is configured *or* it is not
  daytime; with complete inputs both are required. `AutoSteps.DemandMeaning` states both.
- The one-time bypass of the minimum off time is not always used once. It ends exactly when Auto mode is left, the
  charger is disabled or an ordinary start fires (`AutoSteps.BypassEndsIff`); a scheduled-night start leaves it in place,
  so it can serve again (`AutoSteps.BypassServesTwice`). After an ordinary start it does not
  (`AutoRuns.BypassServesOnceAfterOrdinaryStart`).
- Sixteen-bit register values that do not fit are written modulo 65536 without an error. `Registers.DecodeAfterEncode`,
  `Registers.ScaledRoundTrip` and `Client.NumericRoundTrip` therefore carry the exact condition under which a value
  returns.
- A bool register that holds more than 1 decodes to 1 and does not encode back to itself (`Registers.EncodeAfterDecode`).
- A UDP answer that was cut off is returned short instead of failing (`Mbap.UdpRoundTrip`).
- Neither transport compares the unit or transaction number of an answer with the request; the round-trip lemmas hold
  for any of them.
- The emulated on/off state of a charger is inferred from a current only once (`Charger.EnabledIsInferredOnce`), and a
  positive current can still reach the device as zero: a small one by rounding, and one that does not fit a sixteen-bit
  register when it rounds to a multiple of 65536 (`Charger.ZeroRegisterIff`, `Charger.PositiveCurrentsWriteZero`).
- A query for a kind and source that were never recorded can still read a window, filled by others, once a limit has been
  reached; `AttributionNames.UnrecordedReadIff` says exactly when.
- A cached estimate that was never confirmed is never shown as stale (`Cache.StaleIff`), and the energy snapshots change
  without changing the sequence number (`Cache.SequenceTellsChange`).

## Model

| member | source | states |
|---|---|---|
| Policy.ClampIsProjection | venus_evcharger/auto/policy.py:331-383 | clamping establishes every range and ordering invariant, leaves a policy alone exactly when it already satisfies them, and is idempotent |
| Policy.ClampMeaning | venus_evcharger/auto/policy.py:331-383 | where the clamp moves what is out of range: percentages to the nearest end, followers to their leaders, negative times to zero, import limits never |
| Policy.ClampPartsMeaning | venus_evcharger/auto/policy.py:62-91 | the same for smoothing factors, volatility limits, learning and phase settings, with the defaults |
| Policy.AutoPolicy.Clamp | venus_evcharger/auto/policy.py:331-383 | the in-place clamp of the whole policy object, sub-policies included, yields the clamped value of the old one, which is in range |
| Policy.AutoThresholdProfile.Clamp | venus_evcharger/auto/policy.py:37-48 | in-place clamp of a threshold profile |
| Policy.AutoStopEwmaPolicy.Clamp | venus_evcharger/auto/policy.py:68-91 | in-place clamp of the smoothing policy |
| Policy.AutoLearnChargePowerPolicy.Clamp | venus_evcharger/auto/policy.py:132-154 | in-place clamp of the learning policy |
| Policy.AutoPhasePolicy.Clamp | venus_evcharger/auto/policy.py:205-234 | in-place clamp of the phase policy |
| PolicySettings.Assign | venus_evcharger/auto/policy_settings.py:55-227 | each setting writes exactly its own policy field |
| PolicySettings.Update | venus_evcharger/auto/policy_settings.py:48-52 | an external write refuses non-scalars and text that cannot be parsed, and changes nothing then; otherwise it stores, clamps, keeps the policy in range and returns the stored value |
| PolicySettings.ParsedMeaning | venus_evcharger/auto/policy_settings.py:18-40 | which scalar a write stores: flags and the lockout count as integers, the others as numbers, nothing for what is no scalar |
| PolicySettings.TruncateMeaning | venus_evcharger/auto/policy_settings.py:18-40 | conversion to an integer drops the fraction towards zero, and a flag is set from one on |
| PolicySettings.CoreWritesReach | venus_evcharger/auto/policy_settings.py:55-111 | a nonnegative number written to a threshold, SOC, delay or volatility setting is what the named policy field holds after the clamp |
| PolicySettings.LearningWritesReach | venus_evcharger/auto/policy_settings.py:112-160 | the same for the learning settings |
| PolicySettings.PhaseWritesReach | venus_evcharger/auto/policy_settings.py:161-227 | the same for the phase settings |
| PolicySettings.ReplayInvariant | venus_evcharger/auto/policy_settings.py:55-236 | after any prefix of a replay into any clamped policy, every setting already written after its bound has the final value and every other field is unchanged |
| PolicySettings.ReplayRestores | venus_evcharger/auto/policy_settings.py:55-236 | replaying a snapshot in any admissible order copies every setting and touches nothing else |
| PolicySettings.ShippedOrderRestores | venus_evcharger/auto/policy_settings.py:55-236 | the shipped order is admissible, so a snapshot replayed in it restores every setting for any two clamped policies |
| PolicySettings.ReplayOrderCharacterised | venus_evcharger/auto/policy_settings.py:55-236 | an order restores all snapshots into all policies if and only if every setting is written and each bounded one is written after its bound |
| PolicySettings.UnsettledLosesSetting | venus_evcharger/auto/policy_settings.py:48-52 | an order that violates this loses a setting: some concrete pair of clamped policies is not restored |
| Samples.AvailableSurplus | venus_evcharger/auto/logic_samples.py:53-57 | surplus is the lesser of PV power and export, each taken as at least zero |
| Samples.AdaptiveAlpha | venus_evcharger/auto/policy.py:93-101 | for a clamped policy the smoothing factor is a fraction |
| Samples.AlphaByVolatility | venus_evcharger/auto/policy.py:93-101 | the smoothing factor is the stable, volatile or base one as the standard deviation of the sampled surplus compares with the two limits |
| Samples.SmoothBetween | venus_evcharger/auto/logic_samples.py:81-85 | one smoothing step with a fractional factor stays between its two inputs |
| Samples.SmoothDecay | venus_evcharger/auto/logic_samples.py:81-85 | the distance to a constant value decays by 1 - alpha in every step, and the first value is taken as it is |
| Samples.VarianceMeaning | venus_evcharger/auto/logic_samples.py:87-95 | the squared volatility is the mean of the squares less the square of the mean |
| Common.MeanOfOne | venus_evcharger/auto/logic_samples.py:73-79 | the average of one value is that value |
| Common.MeanOfJoin | venus_evcharger/auto/logic_samples.py:73-79 | the average of a joined sequence is that of its parts weighted by their lengths, which with the average of one value fixes every average |
| Samples.DayWindowMeaning | venus_evcharger/auto/logic_samples.py:185-191 | the circular daytime test equals plain interval membership on either side of midnight; equal ends mean all day |
| TimedWindow.PrunedIsRecent | venus_evcharger/auto/logic_samples.py:59-65 | on an ordered deque the loop that pops from the front keeps exactly the entries inside the window |
| TimedWindow.PrunedMeaning | venus_evcharger/auto/logic_samples.py:59-65 | on any deque, ordered or not, the loop drops entries up to the first that is not older than the cutoff |
| TimedWindow.RecentIff | venus_evcharger/auto/logic_samples.py:59-65 | an entry of the history is recent exactly when it is at or after the cutoff |
| TimedWindow.WindowStep | venus_evcharger/auto/logic_samples.py:59-65 | one append-and-prune step keeps a deque equal to the recent part of the whole history |
| Battery.SourceActivityPenalties | venus_evcharger/auto/logic_gates_battery_learning.py:37-54 | the accumulating loop sums the active powers of all sources |
| Battery.CombinedBatteryActivity | venus_evcharger/auto/logic_gates_battery_balance.py:26-79 | combined penalties: sources or cluster, learned multipliers, and the larger of the two balance penalties |
| Battery.PenaltyBounds | venus_evcharger/auto/logic_gates_battery_learning.py:37-76 | for any list of sources the penalty lies between the summed active powers S and 1.875 * S plus the larger balance cap |
| Battery.BalancePenaltyRamp | venus_evcharger/auto/logic_gates_battery_balance_support.py:262-300 | a balance penalty lies in [0, cap], never falls when the error grows, is zero up to the start error and full from twice a start error of at least one watt |
| Battery.PenaltiesGrowWithError | venus_evcharger/auto/logic_gates_battery_balance_support.py:127-143 | raising the measured imbalance never lowers the bias, coordination or effective penalty |
| Battery.CoordinationGateCondition | venus_evcharger/auto/logic_gates_battery_balance_support.py:303-388 | closed form of the coordination gate over the counts of a cluster |
| Battery.ChargeMultiplier | venus_evcharger/auto/logic_gates_battery_learning.py:236-264 | the charge multiplier lies in [1, 1.875] |
| Battery.DischargeMultiplier | venus_evcharger/auto/logic_gates_battery_learning.py:236-273 | the discharge multiplier lies in [1, 1.875] |
| Battery.ChargeFactors | venus_evcharger/auto/logic_gates_battery_learning.py:236-263 | the charge multiplier is a response factor, half as much again after a minute of delay, times a bias factor with a quarter for a full export bias |
| Battery.DischargeFactors | venus_evcharger/auto/logic_gates_battery_learning.py:236-273 | the discharge multiplier likewise, with the bias of imports, of the period or the general one |
| Battery.SourceCounts | venus_evcharger/auto/logic_gates_battery_learning.py:189-206 | a source counts with its power when that is positive and at least a twentieth of a positive learned maximum |
| Battery.TotalOfOne | venus_evcharger/auto/logic_gates_battery_learning.py:37-54 | the total of one source is what that source counts with |
| Battery.TotalsAdd | venus_evcharger/auto/logic_gates_battery_learning.py:37-54 | totals of joined lists add up |
| Battery.ClusterCounts | venus_evcharger/auto/logic_gates_battery_learning.py:83-101 | without sources the combined powers of the cluster count in the same way |
| Battery.BalancePenaltySlope | venus_evcharger/auto/logic_gates_battery_balance_support.py:262-283 | between start error and twice that the penalty grows in proportion to the excess |
| Battery.BalancePenaltyNarrow | venus_evcharger/auto/logic_gates_battery_balance_support.py:262-289 | below one watt of start error the ramp is one watt wide, and without one any imbalance costs the cap |
| Battery.BiasPenaltyMeaning | venus_evcharger/auto/logic_gates_battery_balance_support.py:50-143 | the bias penalty in closed form over counts, export, reserve and mode |
| Battery.CoordinationPenaltyMeaning | venus_evcharger/auto/logic_gates_battery_balance_support.py:167-225 | the coordination penalty in closed form over the counts |
| Battery.CombinedMeaning | venus_evcharger/auto/logic_gates_battery_balance.py:26-127 | what the combined picture holds: both scaled powers, the larger balance penalty, the charging power and the expected exchange |
| Learning.ThresholdsOrdered | venus_evcharger/auto/logic_learning.py:152-178 | for an ordered profile the thresholds in force stay ordered at every learned scale; the static profile stays in force exactly when scaling leaves a negative stop threshold, or equals the scaled one |
| Learning.RoundTenthError | venus_evcharger/auto/logic_learning.py:152-155 | rounding a scaled threshold to a tenth moves it by at most 0.05 W |
| Learning.ThresholdsFollowPower | venus_evcharger/auto/logic_learning.py:144-178 | thresholds in force are whole tenths of a watt within 0.05 W of the profile scaled by learned over reference power, or of the profile while no learned power is in use; else exactly the profile, which takes a negative stop threshold |
| Learning.ActiveWithinAge | venus_evcharger/auto/logic_learning.py:77-142 | an enabled, stable, positive learned power is active exactly up to its maximum age since the last update, if it has one |
| Metrics.EvPriorityGain | venus_evcharger/auto/logic_gates_metrics.py:126-209 | with the same inputs, EV priority never lowers the decision surplus and raises it by at most max(0, PV - base) plus the charge penalty |
| Metrics.EvPriorityWorth | venus_evcharger/auto/logic_gates_metrics.py:126-209 | what EV priority is worth exactly: the waived charge penalty, and the reclaimed charge and own load as far as PV leaves room |
| Metrics.SurplusWithoutPriority | venus_evcharger/auto/logic_gates_battery_learning.py:174-181 | without priority: the positive part of the average less the whole penalty, with 15 % of expected export less expected import |
| Metrics.IdleAverages | venus_evcharger/auto/logic_samples.py:73-79 | with the relay off surplus and grid are the numbers that times the number of samples give the sums of the sampled values |
| Metrics.RunningAverages | venus_evcharger/auto/logic_gates_metrics.py:349-374 | with the relay on both step towards these averages by one factor, and take them as they are at first |
| Metrics.FewSamplesAlpha | venus_evcharger/auto/logic_samples.py:87-100 | one or no sample leaves the base factor |
| Metrics.ProfileInForce | venus_evcharger/auto/logic_learning.py:157-178 | which profile and which bits an observation has, and that its thresholds are those of the profile |
| Metrics.LatestSample | venus_evcharger/auto/logic_samples.py:53-65 | the sample that a decision adds, in terms of PV and grid power |
| Metrics.SampleSurvives | venus_evcharger/auto/logic_samples.py:59-65 | with a nonnegative averaging window the sample just added survives pruning |
| Metrics.MeasuredFrame | venus_evcharger/auto/logic_gates_metrics.py:55-93 | measuring changes only samples, smoothed values and hysteresis bits |
| AutoController.AutoService.AutoDecideRelay | venus_evcharger/auto/logic_decisions_preaverage.py:335-430 | for every state and usable input (clamped policy, nonnegative averaging window), one decision hits no assertion, never leaves through the averaging exit, and its new state and answer are those of the flat first-match table |
| AutoController.AutoService.PreAverageDecision | venus_evcharger/auto/logic_decisions_preaverage.py:125-249 | the gate chain either resolves as the table does or passes on a normalized SOC with PV and grid present |
| AutoController.AutoService.DecisionFromAverages | venus_evcharger/auto/logic_decisions_preaverage.py:251-333 | common runtime gates, then the relay-on or relay-off branch, as the table does |
| AutoController.AutoService.UpdateAverageMetrics | venus_evcharger/auto/logic_gates_metrics.py:55-93 | adds the sample, smooths, updates both hysteresis bits and returns the decision surplus and grid, as the pure observation does |
| AutoController.AutoService.SmoothedDecisionMetrics | venus_evcharger/auto/logic_gates_metrics.py:349-374 | with the relay off both smoothed values are cleared, with it on both take one smoothing step |
| AutoController.AutoService.UpdateEvPriorityState | venus_evcharger/auto/logic_gates_metrics.py:224-236 | one hysteresis step of the EV-priority bit |
| AutoController.AutoService.SurplusThresholdsForSoc | venus_evcharger/auto/logic_learning.py:157-178 | one hysteresis step of the high-SOC bit and the thresholds of the selected profile |
| AutoController.AutoService.AddAutoSample | venus_evcharger/auto/logic_samples.py:59-65 | append and prune from the front |
| AutoController.AutoService.ClearAutoSamples | venus_evcharger/auto/logic_samples.py:67-71 | samples and smoothed values are gone, nothing else changes |
| AutoController.AutoService.MarkRelayChanged | venus_evcharger/auto/logic_samples.py:102-107 | a relay change stamps the change time, and the off time when it went off |
| AutoController.AutoService.ClearAutoDecisionTracking | venus_evcharger/auto/tracking.py:9-20 | the loop clears exactly the three timer fields and reports whether any was set |
| AutoController.AutoService.ResetAutoDecisionState | venus_evcharger/controllers/write_support.py:64-68 | writing the mode clears both timers and the samples and keeps the stop key |
| AutoController.AutoService.ArmOrFireStop | venus_evcharger/auto/logic_gates_runtime.py:283-302 | the stop timer restarts when unset or armed for another key, else fires once it is old enough for this delay |
| AutoController.AutoService.PendingStopOrRunning | venus_evcharger/auto/logic_gates_runtime.py:58-77 | a pending stop keeps the relay on, a fired one switches it off |
| AutoController.AutoService.HandleNonAutoMode | venus_evcharger/auto/logic_gates_runtime.py:103-109 | outside Auto mode all tracking and mode flags are cleared and the relay is left as it is |
| AutoController.AutoService.HandleDisabledMode | venus_evcharger/auto/logic_gates_runtime.py:111-117 | a disabled charger clears all tracking and is switched off |
| AutoController.AutoService.HandleCutoverPending | venus_evcharger/auto/logic_gates_runtime.py:179-242 | a pending cutover resets tracking; until the off position is confirmed the relay stays off, then the off time is bypassed once |
| AutoController.AutoService.HandleGridMissing | venus_evcharger/auto/logic_gates_runtime.py:304-315 | a missing grid reading clears start and samples, requires recovery and, past the minimum runtime, demands a stop |
| AutoController.AutoService.HandleGridRecoveryStartGate | venus_evcharger/auto/logic_gates_runtime.py:317-366 | recovery advances on fresh readings; while it waits only an idle relay is held off |
| AutoController.AutoService.ResolveBatterySoc | venus_evcharger/auto/logic_gates_runtime.py:119-177 | a SOC in [0, 100] is used, else the resume SOC if that is allowed, else the decision ends |
| AutoController.AutoService.HandleMissingInputs | venus_evcharger/auto/logic_gates_runtime.py:389-407 | incomplete inputs still stop for night lock, low SOC or import, past the minimum runtime |
| AutoController.AutoService.HandleCommonRuntimeGates | venus_evcharger/auto/logic_gates_runtime.py:409-420 | warmup and override reset tracking and leave the relay as it is |
| AutoController.AutoService.HandleRelayOn | venus_evcharger/auto/logic_decisions.py:43-122 | the first stop reason in order runs the stop timer with its delay, none clears it |
| AutoController.AutoService.ArmOrFireStart | venus_evcharger/auto/logic_decisions.py:142-153 | the start timer arms, waits, or fires and ends the off-time bypass |
| AutoController.AutoService.HandleRelayOff | venus_evcharger/auto/logic_decisions.py:209-246 | all start conditions run the start timer, otherwise it is cleared |
| AutoController.AutoService.ScheduledNightDecision | venus_evcharger/auto/logic_decisions.py:248-284 | scheduled-night charging starts at once when autostart and off time allow it |
| AutoController.HighSocIdempotent | venus_evcharger/auto/policy.py:385-403 | looking the profile up again within one decision changes nothing |
| AutoSteps.OnlyTwoWaysOn | venus_evcharger/auto/logic_decisions_preaverage.py:335-399 | a decision switches the relay on exactly by an ordinary start or a scheduled-night start |
| AutoSteps.OnlyThreeWaysOff | venus_evcharger/auto/logic_decisions_preaverage.py:335-399 | a decision switches it off only by disabling, a pending cutover or the stop timer |
| AutoSteps.StartsRespectOfftime | venus_evcharger/auto/logic_decisions.py:124-140 | both kinds of start respect the minimum off time |
| AutoSteps.StartFiresIff | venus_evcharger/auto/logic_decisions.py:142-153 | one decision starts exactly when every start gate holds, no cutover is pending and the armed timer is old enough |
| AutoSteps.StopFiresIff | venus_evcharger/auto/logic_gates_runtime.py:283-302 | a demand with the key of a running stop timer keeps the timer and fires exactly when it is old enough |
| AutoSteps.BypassEndsIff | venus_evcharger/auto/logic_decisions.py:142-153 | a pending off-time bypass ends exactly when Auto mode is left, the charger is disabled or an ordinary start fires |
| AutoSteps.BypassServesTwice | venus_evcharger/auto/logic_decisions.py:265-271 | for every night input: after a scheduled-night start and a stop at the same moment the same bypass starts the charger again within the minimum off time |
| AutoSteps.DemandMeaning | venus_evcharger/auto/logic_decisions.py:85-122 | which decisions demand a stop and which stop, in terms of inputs and measurements, in both directions |
| AutoSteps.HealthyDecisionClears | venus_evcharger/auto/logic_decisions.py:43-83 | one decision with the relay on that demands no stop clears the stop timer |
| AutoSteps.OtherDemandRestarts | venus_evcharger/auto/logic_gates_runtime.py:243-302 | a demand with another key restarts the timer instead of stopping |
| AutoSteps.RecoveryStep | venus_evcharger/auto/logic_gates_runtime.py:304-366 | grid loss and fresh readings drive the recovery state; nothing else touches it |
| AutoSteps.RecoveryHoldsStart | venus_evcharger/auto/logic_gates_runtime.py:317-366 | while recovery is required no start is armed and none fires |
| AutoMeaning.StartMeaning | venus_evcharger/auto/logic_decisions.py:124-153 | a start is armed, running or firing exactly when, in terms of inputs, measurements and remembered times, the relay is off, the averages are taken, nothing holds the decision, autostart is on, the bypass is set or the off time over, it is daytime, the surplus reaches the start threshold, the import is allowed and the SOC suffices |
| AutoMeaning.StartStages | venus_evcharger/auto/logic_decisions.py:142-153 | of a start under way: armed at first and after a cutover, fired exactly once the timer is as old as the start delay, and only then is the relay on |
| AutoMeaning.StopMeaning | venus_evcharger/auto/logic_decisions.py:85-122 | a stop of a key is under way exactly when, in the same raw terms, the relay is on past the minimum runtime and the readings give this reason before any other |
| AutoMeaning.StopStages | venus_evcharger/auto/logic_gates_runtime.py:243-302 | of a stop under way: it fires exactly when the timer was armed, for this key or without one, at least the delay of the key ago; the surplus has its own delay; the timers after it |
| AutoMeaning.ModeAnswers | venus_evcharger/auto/logic_decisions_preaverage.py:215-224 | exactly when the mode, disabling, a cutover or scheduled-night charging answers, and how |
| AutoMeaning.ReadingAnswers | venus_evcharger/auto/logic_decisions_preaverage.py:159-249 | exactly when a decision ends for want of a grid reading, of a recovered grid, of a SOC or of inputs, for warmup or override, or without autostart |
| AutoMeaning.AveragesMeaning | venus_evcharger/auto/logic_decisions_preaverage.py:251-333 | exactly when a decision adds a sample and takes averages |
| AutoMeaning.RelayAnswers | venus_evcharger/auto/logic_decisions_preaverage.py:335-399 | the relay that each answer asks for |
| AutoMeaning.ModeMemory | venus_evcharger/auto/logic_gates_runtime.py:179-242 | a decision leaves the relay times alone; completing a cutover grants the bypass, an ordinary start spends it, leaving Auto or disabling clears both bits |
| AutoMeaning.RecoveryMemory | venus_evcharger/auto/logic_gates_runtime.py:304-366 | when recovery becomes required, when its window opens and when it ends |
| AutoMeaning.TrailMemory | venus_evcharger/auto/logic_samples.py:67-71 | after which answers the samples are those observed, kept or cleared; the hysteresis bits change only with the averages |
| AutoMeaning.StartMemory | venus_evcharger/auto/logic_samples.py:269-273 | the start timer after every answer |
| AutoMeaning.StopMemory | venus_evcharger/auto/logic_samples.py:275-278 | the stop timer and its key after every answer that is no stop |
| AutoMeaning.OutsideMemory | venus_evcharger/auto/tracking.py:9-20 | what relay changes, ending a charging session and writing the mode leave |
| AutoRuns.PlayIsRun | venus_evcharger/auto/logic_decisions_preaverage.py:335-399 | every sequence of decisions, relay changes, mode writes and outside clearings of tracking plays as a run, so what holds of all runs holds of it |
| AutoRuns.StartSafety | venus_evcharger/auto/logic_decisions.py:142-153 | over every run: an ordinary start at a decision has an earlier arming decision at least the start delay before, and every start gate held at every decision between |
| AutoRuns.StartIff | venus_evcharger/auto/logic_decisions.py:142-153 | over every run: a decision starts exactly when an earlier tick armed the start at least the delay before and all gates held undisturbed since |
| AutoRuns.StartComes | venus_evcharger/auto/logic_decisions.py:209-246 | with a clock that never goes back, a decision at which all gates have held for the start delay does start the charger |
| AutoRuns.StopSafety | venus_evcharger/auto/logic_gates_runtime.py:243-302 | over every run: a stop through the timer comes after the minimum runtime, at least its delay after arming, and every relay-on decision since demanded exactly its key |
| AutoRuns.StopIff | venus_evcharger/auto/logic_gates_runtime.py:243-302 | over every run: a decision stops through the timer of a key exactly when an earlier tick armed it at least its delay before and nothing disturbed it |
| AutoRuns.StopComes | venus_evcharger/auto/logic_gates_runtime.py:243-302 | with a clock that never goes back, a stop demanded by every relay-on decision for its delay does come |
| AutoRuns.BypassServesOnceAfterOrdinaryStart | venus_evcharger/auto/logic_gates_runtime.py:84-92 | once an ordinary start has spent the bypass, every later start has waited out the minimum off time, until it is granted again |
| AutoRuns.GridLossBound | venus_evcharger/auto/logic_gates_runtime.py:304-366 | over every run: after a grid loss no ordinary start happens before recovery time plus start delay have passed since the grid was first fresh again, with the recovery settings from then on |
| AutoRuns.StartNeedsFreshGrid | venus_evcharger/auto/logic_gates_runtime.py:304-366 | between the last grid loss and any later ordinary start the grid was seen fresh, so the bound covers every such start |
| AutoChatter.SwitchOnSpacing | venus_evcharger/auto/logic_gates_runtime.py:79-92 | in a closed loop two switch-ons are at least minimum runtime plus minimum off time apart, scheduled-night starts and late relay changes included; only the settings between the two count |
| AutoChatter.ChatterBound | venus_evcharger/auto/logic_samples.py:102-107 | a window of length T holds at most T / (minimum runtime + minimum off time) + 1 switch-ons |
| AutoSmoothing.PlayIsMeasured | venus_evcharger/auto/logic_gates_metrics.py:55-93 | every such sequence plays as a measured run |
| AutoSmoothing.SmoothingStaysInHull | venus_evcharger/auto/logic_gates_metrics.py:349-374 | over any run the samples and both smoothed values lie between the extremes of the samples added since the last clear |
| AutoSmoothing.SmoothedSurplusBoundedByPv | venus_evcharger/auto/logic_samples.py:53-100 | over any run the smoothed surplus lies between zero and the greatest PV power seen |
| AutoSmoothing.DequeIsWindow | venus_evcharger/auto/logic_samples.py:59-65 | for a clock that never goes back the deque is, after an averaging decision, exactly the added samples inside the averaging window |
| AutoSmoothing.BitsFollowLatestDecisiveSoc | venus_evcharger/auto/policy.py:385-403 | over any run the EV-priority bit and the high-SOC bit are on exactly when the latest SOC outside their band was on the activating side |
| Crc.ModbusCrc | venus_evcharger/backend/modbus_transport_serial.py:86-97 | the byte loop computes the bit-serial CRC-16 of section 6.2.2 of MODBUS over Serial Line V1.02 |
| Crc.CrcFrame | venus_evcharger/backend/modbus_transport_serial.py:99-102 | a sealed frame carries its CRC, low byte first |
| CrcPreset.PresetComplementsHead | venus_evcharger/backend/modbus_transport_serial.py:86-97 | the preset of all ones: the CRC of a frame of at least two bytes is what a register preset to zero holds after the frame with its first sixteen bits complemented |
| CrcPreset.LeadingZeroCounts | venus_evcharger/backend/modbus_transport_serial.py:86-97 | a leading zero byte always changes the CRC, which it would not with a register preset to zero |
| CrcPreset.SealedRequest | venus_evcharger/backend/modbus_transport_serial.py:99-102 | the request 01 03 00 00 00 01 goes out with the check bytes 84 0A |
| CrcDetection.AcceptedIffZeroRegister | venus_evcharger/backend/modbus_transport_serial.py:251-256 | a frame of any length is accepted exactly when the register after all of it, check bytes included, is zero |
| CrcDetection.SealedIsAccepted | venus_evcharger/backend/modbus_transport_serial.py:99-102 | what is sealed is accepted |
| CrcDetection.UndetectedIff | venus_evcharger/backend/modbus_transport_serial.py:251-256 | an error is missed exactly when it alone leaves a zero register zero: detection does not depend on the frame |
| CrcDetection.AcceptedHasEvenOnes | venus_evcharger/backend/modbus_transport_serial.py:86-97 | every accepted frame has an even number of one bits |
| CrcDetection.OddErrorsDetected | venus_evcharger/backend/modbus_transport_serial.py:251-256 | an odd number of flipped bits is never accepted |
| CrcDetection.BurstsDetected | venus_evcharger/backend/modbus_transport_serial.py:251-256 | no nonempty error within sixteen consecutive bits is accepted |
| CrcDetection.SeventeenBitsCanHide | venus_evcharger/backend/modbus_transport_serial.py:86-97 | sixteen is the limit: the seventeen-bit pattern of the polynomial leaves no trace wherever it falls |
| CrcDetection.HidingErrorAccepted | venus_evcharger/backend/modbus_transport_serial.py:251-256 | in every accepted frame of at least three bytes the error bytes 0x03, 0x40, 0x01 at any position stay undetected |
| CrcDistance.PeriodIff | venus_evcharger/backend/modbus_transport_serial.py:86-97 | shifting a register that holds one brings it back exactly after every multiple of 32767 shifts |
| CrcDistance.TwoFlipsIff | venus_evcharger/backend/modbus_transport_serial.py:251-256 | two flipped bits in an accepted frame of any length go undetected exactly when their distance is a multiple of 32767 bits |
| CrcDistance.FewFlipsDetected | venus_evcharger/backend/modbus_transport_serial.py:251-256 | in frames of up to 4095 bytes one, two or three flipped bits are never accepted |
| ByteLine.ReadExact | venus_evcharger/backend/modbus_transport_serial.py:285-299 | whatever sizes the reads return, exactly the next n bytes come back and the rest stays, or the reason why they did not come |
| ByteLine.WriteAll | venus_evcharger/backend/modbus_transport_serial.py:270-276 | a frame goes out whole, or a proper prefix of it does; how it ends is determined by what the line takes |
| ByteLine.StreamMeaning | venus_evcharger/backend/modbus_transport_serial.py:285-299 | the stream is what the chunks before the first interruption bring, and how it stops is told by that event |
| ByteLine.WriteMeaning | venus_evcharger/backend/modbus_transport_serial.py:270-276 | writing ends when the outlets have taken everything; else the next one decides, and one that takes nothing means no progress |
| SerialRtu.ReceiveReply | venus_evcharger/backend/modbus_transport_serial.py:235-256 | header, announced rest and CRC check, on any chunking of the incoming bytes |
| SerialRtu.ExchangeOnce | venus_evcharger/backend/modbus_transport_serial.py:235-256 | one exchange sends at most the sealed request and ends as writing and the incoming bytes say |
| SerialRtu.LengthIsExpected | venus_evcharger/backend/modbus_transport_serial.py:147-158 | the expected length is that of the reply exactly when the reply is well-formed for its request |
| SerialRtu.ReplyIsAnswered | venus_evcharger/backend/modbus_transport_serial.py:235-256 | a well-formed reply (read, write echo or exception) is answered with exactly its PDU, whatever follows it |
| SerialRtu.AnswerIsReply | venus_evcharger/backend/modbus_transport_serial.py:235-256 | conversely an answer is the PDU of a well-formed, correctly sealed frame at the head of the incoming bytes |
| SerialRtu.DamagedReplyIsRejected | venus_evcharger/backend/modbus_transport_serial.py:251-256 | a reply damaged by a burst, an odd number of flips or up to three flips, without changing its announced length, is rejected |
| SerialRtu.PortOwner.EnsureOwned | venus_evcharger/backend/modbus_transport_serial.py:35-43 | the stop command runs only when the port is not ours |
| SerialRtu.PortOwner.Recover | venus_evcharger/backend/modbus_transport_serial.py:45-48 | recovery repeats the stop command on an owned port |
| SerialRtu.PortOwner.Release | venus_evcharger/backend/modbus_transport_serial.py:50-58 | release gives the port back only when the start command succeeds |
| SerialRtu.ExchangeAttempt | venus_evcharger/backend/modbus_transport_serial.py:207-256 | opening the tty requires that a managed port is owned, and is noted as one use |
| SerialRtu.Exchange | venus_evcharger/backend/modbus_transport_serial.py:175-233 | at most max(1, retries + 1) attempts, the result of the retry function below, and every use of a managed tty, where it is opened, happens while it is owned |
| SerialRtu.AttemptWithRecovery | venus_evcharger/backend/modbus_transport_serial.py:191-216 | one attempt claims the port, exchanges only then, and recovers unless it was the last; it uses a managed tty once if the claim succeeds and else never |
| SerialRtu.FirstAnswerCounts | venus_evcharger/backend/modbus_transport_serial.py:175-216 | the result is a PDU exactly when some attempt within the limit answers it and all attempts before it failed retryably and were recovered from |
| SerialRetry.RequestLayout | venus_evcharger/backend/modbus_transport_serial.py:235-248 | the bytes of a request: unit, function code, payload and check bytes |
| SerialRetry.UnansweredIsRetryable | venus_evcharger/backend/modbus_transport_serial.py:207-213 | with the request written, bytes that fall short of the announced length and then silence or a closed line make an attempt retryable |
| SerialRetry.FaultIsRetryable | venus_evcharger/backend/modbus_transport_serial.py:207-216 | a fault in opening, writing or reading makes it retryable too, as busy or as a transport error |
| SerialRetry.FatalEndings | venus_evcharger/backend/modbus_transport_serial.py:207-216 | a line that takes no more bytes and a reply of unknown length end the exchange at once |
| SerialRetry.AnsweredEnds | venus_evcharger/backend/modbus_transport_serial.py:235-256 | a well-formed, sealed reply in the first chunks is answered with its PDU |
| SerialRetry.FailureIsReported | venus_evcharger/backend/modbus_transport_serial.py:191-233 | how failures end the loop: fatal as they are, unrecovered ones as ownership, the last retryable one as it is but a missing answer as slave offline |
| SerialRetry.SilenceIsRetried | venus_evcharger/backend/modbus_transport_serial.py:175-216 | attempts that meet silence, closing or a broken-off reply are followed by the next one, whose answer is the result, whenever one is left and the port is unmanaged or recovered |
| SerialRetry.SilenceIsOffline | venus_evcharger/backend/modbus_transport_serial.py:175-233 | when all retries + 1 attempts end so, the result is that the slave is offline |
| Mbap.TcpTransport.Exchange | venus_evcharger/backend/modbus_transport.py:142-161 | one TCP exchange sends the request in its MBAP frame under the next transaction number and answers as the incoming stream says |
| Mbap.ReceiveAnswer | venus_evcharger/backend/modbus_transport.py:124-161 | header and announced body are read on any chunking; the answer is determined by the incoming stream |
| Mbap.TcpRoundTrip | venus_evcharger/backend/modbus_transport.py:124-161 | over TCP the answer is a PDU exactly when a frame that announces it is at the head of the stream |
| Mbap.TcpReplyIsAnswered | venus_evcharger/backend/modbus_transport.py:124-161 | a reply in its frame comes back as its PDU, whatever the chunking and whatever follows |
| Mbap.FrameLayout | venus_evcharger/backend/modbus_transport.py:142-152 | the bytes of a frame: transaction, protocol zero, length of the rest, unit, PDU |
| Mbap.TcpFailureIff | venus_evcharger/backend/modbus_transport.py:124-161 | when a TCP answer fails: fewer bytes than header and announced body; silence and closing are timeouts, a fault is a system error |
| Mbap.UdpTransport.Exchange | venus_evcharger/backend/modbus_transport.py:171-191 | one UDP exchange sends the request in its MBAP frame and slices the datagram that comes back |
| Mbap.UdpRoundTrip | venus_evcharger/backend/modbus_transport.py:171-191 | over UDP the whole PDU comes back exactly when the datagram is uncut and fits the receive buffer; a cut one is answered short without an error |
| Mbap.UdpLimits | venus_evcharger/backend/modbus_transport.py:171-191 | a datagram shorter than the header is a timeout, and an uncut frame brings its whole PDU exactly up to 253 bytes |
| Registers.FromToBytes | venus_evcharger/backend/modbus_client.py:115-137 | big-endian bytes give back every number that fits |
| Registers.ToFromBytes | venus_evcharger/backend/modbus_client.py:115-137 | every byte string is the encoding of its number |
| Registers.DecodeAfterEncode | venus_evcharger/backend/modbus_client.py:38-187 | for each integer type and word order a value comes back exactly when it fits the type; sixteen-bit types wrap modulo 65536, thirty-two-bit types refuse |
| Registers.EncodeAfterDecode | venus_evcharger/backend/modbus_client.py:38-187 | registers come back from what they decode to, for every integer type; a bool register exactly when it holds 0 or 1 |
| Registers.ScaledRoundTrip | venus_evcharger/backend/modbus_profile_models.py:43-98 | a numeric write followed by a scaled read is within half a raw step, 1 / (2 * abs(scale)), exactly when the rounded raw value fits the type |
| Registers.WordsMeaning | venus_evcharger/backend/modbus_client.py:140-163 | the numbers that one or two registers mean, for every type and word order |
| Registers.ScalingMeaning | venus_evcharger/backend/modbus_profile_models.py:43-91 | a numeric write rounds value times scale to the nearest integer, ties to even, and a read divides by the same scale |
| Client.ResponseMeaning | venus_evcharger/backend/modbus_client.py:222-238 | response data is accepted exactly from the response of that function; an exception response surfaces with its code |
| Client.ReadRegistersMeaning | venus_evcharger/backend/modbus_client.py:258-272 | a register read gives some words exactly on the one response that carries them |
| Client.ResponseErrors | venus_evcharger/backend/modbus_client.py:222-272 | what every other response is reported as |
| Client.ScalarBytes | venus_evcharger/backend/modbus_client.py:274-288 | from the bytes of a register response to the number read, with the function codes |
| Client.BitTravels | venus_evcharger/backend/modbus_client.py:274-288 | a coil or discrete input sent over a serial line is read as 0 or 1, with the function codes |
| Client.BitPositions | venus_evcharger/backend/modbus_client.py:240-256 | where bit k of a response is |
| Client.BitWeights | venus_evcharger/backend/modbus_client.py:240-256 | which bit of a byte is the k-th |
| Client.WriteBytes | venus_evcharger/backend/modbus_client.py:298-317 | the bytes of single and multiple register writes |
| Client.WriteRefusedIff | venus_evcharger/backend/modbus_client.py:125-128 | exactly when a register write fails before it is sent |
| Client.WordBytesAgree | venus_evcharger/backend/modbus_client.py:115-128 | a word has the same bytes in the register codec and on the line |
| Client.PayloadsAgree | venus_evcharger/backend/modbus_client.py:38-50 | the payload of the codec is what travels on the line, for any number of registers |
| Client.ReadPayloadAgrees | venus_evcharger/backend/modbus_client.py:258-272 | the words taken from a response join in the codec to the bytes that were on the line |
| Client.ReadBits | venus_evcharger/backend/modbus_client.py:240-256 | the bit loop returns the requested bits, and the index error on a response with too few bytes |
| Client.BitsRoundTrip | venus_evcharger/backend/modbus_client.py:240-256 | bits packed as section 6.1 of MODBUS Application Protocol V1.1b3 says come back unpacked, for every count a response can hold |
| Client.ValueTravels | venus_evcharger/backend/modbus_client.py:274-288 | a value in a device register, sent over a serial line by any unit, is read as the same value whatever follows it on the line |
| Client.WriteIsStored | venus_evcharger/backend/modbus_client.py:298-317 | a write request makes a device (sections 6.6 and 6.12) store exactly the encoded words at their addresses, or refuse more than 123 registers or any past address 65535 |
| Client.NumericRoundTrip | venus_evcharger/backend/modbus_profile_models.py:43-98 | through client, device and back a numeric value is within half a raw step exactly when its raw value fits the type and its registers fit the address space, and no other register changes |
| Charger.LoadedIsSound | venus_evcharger/backend/modbus_profiles.py:176-261 | a loaded profile has supported selections that its phase write can express, a positive default current and a way to be enabled |
| Charger.LoadMeaning | venus_evcharger/backend/modbus_profiles.py:215-260 | loading succeeds exactly with one selection or a phase map and a way to enable, and keeps what is configured |
| Charger.SupportedMeaning | venus_evcharger/backend/modbus_profiles.py:171-213 | which selections a profile supports: the configured ones that the map can express, else all of the map, else P1 |
| Charger.DefaultCurrent | venus_evcharger/backend/modbus_profiles.py:197-204 | the default enable current is the configured one when that is positive, and 6 A otherwise |
| Charger.Backend.ReadChargerState | venus_evcharger/backend/modbus_charger.py:67-84 | a successful reading updates all caches, a failed one none |
| Charger.Backend.SetEnabledState | venus_evcharger/backend/modbus_charger.py:86-97 | enabling writes a current or the enable register; a failed write changes no cache |
| Charger.Backend.SetCurrentAmps | venus_evcharger/backend/modbus_charger.py:99-104 | a successful current write updates the current cache, and the resume cache when positive |
| Charger.Backend.SetPhaseSelection | venus_evcharger/backend/modbus_charger.py:106-112 | only a supported selection that the phase write accepts is written and cached |
| Charger.Backend.EnabledTargetCurrent | venus_evcharger/backend/modbus_charger.py:114-131 | resume current, else current, else default; zero for off |
| Charger.CachesAreHistory | venus_evcharger/backend/modbus_charger.py:67-131 | over any run of calls and failures: the current cache is the last current written or read, the resume cache the last positive one, the phase cache supported |
| Charger.CallsDeliver | venus_evcharger/backend/modbus_charger.py:67-131 | over any run, what each call does to the device: above all an accepted enable call of a directly enabled charger delivers exactly the commanded state |
| Charger.DirectlyEnabledIsLatest | venus_evcharger/backend/modbus_charger.py:86-97 | over any run the enabled cache of a directly enabled charger is the last state written to the enable register or read from the state field |
| Charger.EnabledIsKnown | venus_evcharger/backend/modbus_profile_models.py:146-194 | over any run, for every profile, the enabled cache is the state commanded or read last, or the one inferred from the first known current |
| Charger.PhaseIsKnown | venus_evcharger/backend/modbus_profile_models.py:170-182 | over any run the phase cache is the selection written or read last, the first supported one for an unsupported reading |
| Charger.EnableWritesLatestPositive | venus_evcharger/backend/modbus_charger.py:86-131 | after any run, enabling by current writes the most recent positive current ever written or read, else the positive default, never zero |
| Charger.PauseKeepsResume | venus_evcharger/backend/modbus_charger.py:86-131 | after a pause of any length without a positive current, the charger resumes with the current it had before |
| Charger.EnabledIsInferredOnce | venus_evcharger/backend/modbus_profile_models.py:184-188 | without a state field the on/off state is inferred from a current only once; afterwards only an accepted enable call changes it |
| Charger.ZeroRegisterIff | venus_evcharger/backend/modbus_client.py:170-187 | for every integer type and word order, a written current reaches the device as zero exactly when its scaled value is within one half of zero or, in a sixteen-bit register, rounds to a multiple of 65536; among currents that fit only the former |
| Charger.PositiveCurrentsWriteZero | venus_evcharger/backend/modbus_profile_models.py:87-91 | 0.4 A at scale 1 and 65.536 A at scale 1000 both reach a sixteen-bit register as zero |
| Latency.PercentileMeaning | venus_evcharger/dbus_gateway_latency.py:72-77 | a percentile is a recorded sample and the least number that at least ceil(f * n) samples do not exceed |
| Latency.SummaryInOrder | venus_evcharger/dbus_gateway_latency.py:58-77 | 0 <= p95 <= p99 <= max and 0 <= average <= max |
| Latency.SummaryFigures | venus_evcharger/dbus_gateway_latency.py:58-77 | what each figure is: the average times the number of latencies is their sum, p95 and p99 are the least values that 95 and 99 of 100 latencies do not exceed, and max is the greatest |
| Latency.SummaryOfNothing | venus_evcharger/dbus_gateway_latency.py:22-32 | without latencies all figures but the timeouts are zero |
| Latency.RecordedLast | venus_evcharger/dbus_gateway_latency.py:41-49 | what the records and timeouts of a history are, negative latencies as zero |
| Latency.WindowSummaryInOrder | venus_evcharger/dbus_gateway_latency.py:58-77 | the same for every window after any calls, since latencies are clipped at zero |
| Latency.DequeIsRecent | venus_evcharger/dbus_gateway_latency.py:41-56 | for times that never go back the deque is exactly what was recorded within the window before the last call |
| Latency.SummaryIsOfHistory | venus_evcharger/dbus_gateway_latency.py:58-70 | for times that never go back the summary is that of the full history filtered to the window |
| Latency.LatencyWindow.RecordLatency | venus_evcharger/dbus_gateway_latency.py:41-44 | a latency is clipped at zero, appended, and old entries dropped |
| Latency.LatencyWindow.RecordTimeout | venus_evcharger/dbus_gateway_latency.py:46-49 | a timeout is appended and old entries dropped |
| Latency.LatencyWindow.Prune | venus_evcharger/dbus_gateway_latency.py:51-56 | both loops drop from the front what is older than the window |
| Latency.LatencyWindow.SummaryAt | venus_evcharger/dbus_gateway_latency.py:58-70 | the summary of what the window holds; for times that never go back, of everything recorded within it |
| Attribution.FillIsBounded | venus_evcharger/dbus_gateway_latency.py:142-178 | over any run of records kinds and sources per kind never exceed their limits |
| Attribution.RoutesAreStable | venus_evcharger/dbus_gateway_latency.py:142-178 | the key chosen at a record is the one chosen ever after, and a query reads exactly the window those records went to |
| Attribution.FillIsPartition | venus_evcharger/dbus_gateway_latency.py:98-115 | each window has received exactly the records routed to it, in order, and every record is in the window of its route |
| Attribution.UnsettledReadsOverflow | venus_evcharger/dbus_gateway_latency.py:159-167 | exactly when a query for a pair without a window of its own reads one, which is then an overflow window that was not asked for |
| AttributionNames.OwnRoutesIff | venus_evcharger/dbus_gateway_latency.py:142-178 | for all limits and names: every record goes to the window of its own kind and source exactly when each came while its kind and source had a key or there was room; the windows are then exactly those |
| AttributionNames.OwnWindowsIff | venus_evcharger/dbus_gateway_latency.py:142-178 | fewer kinds than the limit, and of each kind fewer sources, suffice for that; when no record uses the overflow name they are also necessary |
| AttributionNames.WindowsAreExact | venus_evcharger/dbus_gateway_latency.py:98-178 | when all records came in time, the window of a kind and source exists exactly when they were recorded, and holds exactly their records |
| AttributionNames.FirstRecordDecides | venus_evcharger/dbus_gateway_latency.py:168-178 | a new kind gets a key of its own exactly when fewer than the limit less one were recorded before it, else the overflow key |
| AttributionNames.QueryReadsIff | venus_evcharger/dbus_gateway_latency.py:159-167 | for all records and queries, the overflow name included: exactly when a query reads a window |
| AttributionNames.UnrecordedReadIff | venus_evcharger/dbus_gateway_latency.py:159-167 | exactly when a query for a pair that was never recorded reads a window, which is then an overflow window |
| AttributionNames.UnrecordedReadExample | venus_evcharger/dbus_gateway_latency.py:159-178 | such a query reads the overflow window with limits of one, and nothing with limits of two |
| Attribution.RoutedSummary | venus_evcharger/dbus_gateway_latency.py:117-127 | for times that never go back a source summary is the summary of exactly the records routed to its window |
| Attribution.BoundedAttribution.Window | venus_evcharger/dbus_gateway_latency.py:142-157 | finds or creates the window of the chosen key and disturbs no other |
| Attribution.BoundedAttribution.RecordLatency | venus_evcharger/dbus_gateway_latency.py:98-106 | one more record reaches exactly the window of its route |
| Attribution.BoundedAttribution.RecordTimeout | venus_evcharger/dbus_gateway_latency.py:108-115 | one more timeout reaches exactly the window of its route |
| Attribution.BoundedAttribution.ExistingWindow | venus_evcharger/dbus_gateway_latency.py:159-167 | the window of the pair, else of an overflow key, else none |
| Attribution.BoundedAttribution.SourceSummary | venus_evcharger/dbus_gateway_latency.py:117-127 | the summary of the window that a query reads, which holds exactly the records of its key |
| Cache.CacheStore.UpdateValue | venus_evcharger/dbus_gateway_cache.py:93-137 | an update replaces the entry of its key and counts the sequence up |
| Cache.CacheStore.MarkAsUnreadable | venus_evcharger/dbus_gateway_cache.py:196-228 | a failure keeps value and timestamps of the entry and counts the sequence up |
| Cache.CacheStore.SetLocalServiceRegistered | venus_evcharger/dbus_gateway_cache.py:230-237 | a changed registration counts the sequence up, an unchanged one changes nothing |
| Cache.CacheStore.UpdateSeenServices | venus_evcharger/dbus_gateway_cache.py:239-242 | the service list is replaced and the sequence counts up |
| Cache.CacheStore.SetEnergySnapshots | venus_evcharger/dbus_gateway_cache.py:244-256 | energy snapshots are replaced without counting the sequence up |
| Cache.EntryIsFold | venus_evcharger/dbus_gateway_cache.py:93-137 | for any mix of confirmed updates, estimates and failures at positive times, an entry holds the last value, its update time, the last confirmation time and the time of the first update in the trailing block of equal values |
| Cache.EntryReportsLastCall | venus_evcharger/dbus_gateway_cache.py:93-228 | for any mix of calls status, source, error, confidence, age, reason and next probe are as the last call of the key left them, the kind is the one named last, the rest that of the last update |
| Cache.BlockStartMeaning | venus_evcharger/dbus_gateway_cache.py:111-113 | what that trailing block is: all equal to the last value, and preceded by a different one |
| Cache.EntryExistsIff | venus_evcharger/dbus_gateway_cache.py:196-228 | a key has an entry exactly when it was updated or marked |
| Cache.SequenceTellsChange | venus_evcharger/dbus_gateway_cache.py:230-256 | over any run the sequence never goes back, and while it stays the same so do values, services and registration |
| Cache.StoreIsLatest | venus_evcharger/dbus_gateway_cache.py:230-256 | over any run registration, services and energy are those set last, and the sequence counts exactly the calls that change the contents |
| Cache.EqualSequencesAgree | venus_evcharger/dbus_gateway_cache.py:258-281 | two snapshots with equal sequence hold the same contents and, for the same moment, project the same |
| Cache.StaleIff | venus_evcharger/dbus_gateway_cache_snapshot.py:101-154 | an external fresh value is shown stale exactly when it was ever confirmed and the last confirmation is older than allowed; a never confirmed estimate stays fresh |
| Cache.ProjectionMeaning | venus_evcharger/dbus_gateway_cache_snapshot.py:101-154 | when the shown status differs from the stored one: an own fresh entry while the service is unregistered, and an external value older than allowed; and the shown ages |
| Cache.SnapshotShows | venus_evcharger/dbus_gateway_cache.py:258-281 | a snapshot shows exactly the keys that were updated or marked |

## Left out

- IEEE 754 behaviour, NaN and the float32 register type: numbers are real numbers, so the rounding of 0.95 * n and
  similar products in floating point is not captured.
- The rounding of the square root in the volatility: thresholds are compared with the variance on squares, which
  `Samples.AlphaByVolatility` shows to be the comparison with its exact root.
- Health texts, numeric state codes, audit events, warnings, logging and the large metrics dictionary: only relay answer,
  timers, samples and the values a decision compares are modelled.
- The clock is read once per decision: a clock that moves between two reads within one decision, or mode and schedule
  answers that change within one, are not modelled.
- AutoChatter.ChatterBound: assumes what its closed loop says, namely that decisions see the true relay position, that the
  relay changes only to carry out a decision made since its last change, however late, and that there is no disabling,
  cutover or switching from outside. A relay change that repeats the present position is not covered.
- A state restored at start-up: runs begin with an empty state, and a restored cutover or restored relay times appear as
  first interventions and relay changes.
- AutoRuns.GridLossBound: counts recovery time as the least recovery setting from the fresh reading to the start, as it may
  change from tick to tick.
- AutoSmoothing.DequeIsWindow: takes one averaging window for the run; a window changed while samples are held is not
  covered.
- AutoSmoothing.BitsFollowLatestDecisiveSoc: takes the four hysteresis limits as fixed for the run, and the SOCs are those
  that reached the metrics stage.
- Cache.EntryIsFold: requires positive times, as the code treats a time of zero as unknown.
- How text is parsed as a number: a text written to a policy setting comes with what int() and float() make of it, any
  outcome at all. Text scalars of registers and value maps are not modelled.
- Struct errors of malformed register tuples and the check of register types in numeric writes.
- termios configuration, file descriptors, sleeping between retries, sockets, subprocesses and exit handlers: their
  outcomes are arbitrary inputs; that they are closed again is not modelled.
- The full summary over all kinds and sources of the attribution: it repeats the summary of each window.
- Cache health, snapshot files and their age check, and the payloads of energy snapshots.
- Coil writes and the reply length check of writes: one reading settles them.
- `cutover_confirmed_off`, `scheduled_mode_snapshot`, `derive_energy_forecast`, `summarize_energy_learning_profiles` and
  `timestamp_age_within` are not part of this model.
- Configuration parsing beyond the charger profile's phases and default current, the backend registry, HTTP charger
  adapters, the setup wizard, and the development and operations scripts.
