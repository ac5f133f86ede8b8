# Verification of the box's safety-critical logic

This project models, in Dafny, the parts of the agent whose behaviour spans several
components, time and failing hardware, and proves what they promise over every run:

* **From detection to relay.** `PersonPresence` and `TamperWatch` debounce raw
  observations, `DetectionState` publishes changes and timed refreshes, `SecurityRelay`
  keeps detection sources with a time-to-live, a hold and a failsafe, and `RelayBoard`
  drives four relay channels through GPIO calls that may raise, be lost or read back
  wrongly. Each is a class whose methods are proved equal to a specification on values;
  `SecurityRelayRuns`, `SecurityRelayRelease`, `RelayTicks`, `RelayWriteFacts`,
  `RelayBoardFacts`, `Pipeline`, `DetectionDelivery` and `KeepAlive` prove what holds of
  that specification, step by step and over runs. `RelayMachine` puts manager and board
  together down to the pins, `RelayFaults` and `RelayRecovery` do so on failing hardware,
  `SharedOutputs` with other users of the outputs, and `PipelineMachine` drives the whole
  chain.
* **MQTT.** `OfflineQueue` is the pending queue and its flush, `OfflineQueueFacts`
  relates it to the unbounded log, `DeliveryOrder` to the order messages were offered;
  `CommandWindow` is the duplicate-command filter against the plain history of accepted
  ids.
* **QR unlock.** `QrScanner` is token reservation and the reading of the backend's
  answer; `UnlockCycle` interleaves scanner threads, validation workers, the unlock
  worker and every other caller of the relay controller at will.
* **WiFi.** `NmcliFields` is the terse field splitter with the printer it inverts;
  `WifiCandidates` and `WifiFilter` are candidate selection, the scanner's
  de-duplication in front of it and the switch decision behind it, over the stable sort
  in `StableSort`.

Time is a real-valued clock handed to each step and read once per step. Pin writes, reads
and start attempts are scripts of fates (`GpioPort`), so a theorem with no assumption on
them covers every fault. Over whole manager runs each relay write reports success or
failure freely; `RelayMachine`, `RelayFaults` and `SharedOutputs` replace that freedom by
the board itself, working or failing. Locks make each modelled step atomic. A positive
clock is assumed only where the code uses 0.0 for "never".

## What the proofs showed about the code

* The hold is guaranteed exactly when `timeout_seconds <= failsafe`; a shorter failsafe
  cuts it short (`HoldGuaranteeExactlyWhen`).
* On failing hardware the manager's belief that the relay is off can be trusted exactly
  when no pin reading is ever wrong and either every write lands, or no reading is ever
  missing and a write has two attempts or more. Otherwise some run leaves a pin active
  behind an idle manager: with `SECURITY_RELAY_RETRY_COUNT` at its minimum of one, a red
  write that lands before a buzzer write that raises; with two or more, a raised or lost
  OFF write whose readout is missing, since the controller then answers from its flags;
  with any count, an ON write read back wrongly. The pin stays active until the next
  detection or a manual off (`NeverSilentlyOnExactlyWhen`, `NeverStuckOnExactlyWhen`,
  `RepairedExactlyWhen`).
* The bound ttl + failsafe + 2P on a stuck relay holds of every run exactly when the
  failsafe is no longer than the ttl, or there is no hold: after a failed OFF write a late
  clear restarts the failsafe clock (`SettledBoundExactlyWhen`). A bound for every case
  starts from the larger of ttl and failsafe (`ReleasedAfterQuiet`).
* An ON write lost by the hardware is never rewritten to the pin, since the retry sees the
  flag already set. With the hardware working again, a later ON write leaves a pin active
  exactly when its flag was not set or the pin was active already, and it is reported as
  successful when either pin is active, the other possibly dead (`OnNeverRewritten`,
  `OnDrivesExactlyWhen`, `OnReportMayMissTheBuzzer`). OFF does reach both pins from every
  combination (`OffAlwaysRecovers`).
* Locking clears the locker flag before it writes the pin. If that write raises, the unlock
  cycle ends with the locker open, and every later lock call returns early; only another
  unlock cycle closes it (`RaisedRelockEndsOpen`, `LostRelockStays`,
  `LockWorksExactlyWhen`, `EndsLockedExactlyWhen`).
* A present person is kept alive exactly when the ttl covers the swallowed refreshes, one
  refresh and one report gap (`KeptAliveExactlyWhen`).
* A direct publish does not retire an older pending message of its topic, so the next
  flush delivers the stale one last; nothing else breaks a topic's order
  (`DirectPublishIsOvertaken`, `KeepsOrderExactlyWhen`).
* The clear-frame and clear-seconds settings of the person detector have no visible
  effect unless the presence timeout is zero and some trigger is longer than one frame.
* De-duplicating a scan first is harmless only while raw and normalised strengths agree.
* The state manager's description (app/streaming_agent/detection/state_manager.py:18-23)
  says repeated active frames publish nothing; the code refreshes them (137-152,
  174-203). The controller's description
  (app/streaming_agent/gpio/relay_controller.py:15-37) names the detection
  state manager as the only caller of `set_security_relays`; the caller is the security
  relay manager. The model follows the code.

## Model

| member | source | states |
|---|---|---|
| RelayMachine.RunStaysFaithful | app/streaming_agent/relay/security_relay_manager.py:94-257 | Relay manager driving the real board, any run of detections, clears, ticks and manual offs, working GPIO, outputs reserved for security: both pins are active exactly while the manager believes the relay is on, and the manager's run is the abstract one in which every write succeeds |
| RelayRecovery.NeverStuckOnExactlyWhen | app/streaming_agent/gpio/relay_controller.py:15-37 | No relay stuck ON, at pin level, over whole runs from start-up with faults of a given kind before t (writes lost or raising; readings missing; readings wrong), then working GPIO, no detection and ticks at most P apart, outputs reserved for security: red and buzzer are both inactive from t + drain + failsafe + 2P on in every such run iff no reading may be wrong and either every write lands, or no reading may be missing and a write has two attempts or more |
| RelayRecovery.NoRelayStuckOn | app/streaming_agent/gpio/relay_controller.py:15-37 | The positive half for one run, the belief included: off, without sources, both pins inactive, whatever clears and manual offs arrive |
| RelayRecovery.ReleasedAfterAnyFaults | app/streaming_agent/relay/security_relay_manager.py:150-249 | After faults of any kind, wrong readings included: from the same bound on the relay is believed off, and a pin is still active iff one was at t and the manager has issued no write since; a relay believed on at t is off at both pins |
| RelayRecovery.RepairedExactlyWhen | app/streaming_agent/relay/security_relay_manager.py:94-148 | An active pin behind an idle manager that believes it off stays through any run of ticks and clears; belief and pins agree again, for good, iff a detection or a manual off has come |
| RelayRecovery.AnyWriteRepairs | app/streaming_agent/relay/security_relay_manager.py:283-330 | On hardware that works again any write the manager issues restores agreement, whatever flags, pins and belief the faults left |
| RelayRecovery.PinsReleased | app/streaming_agent/gpio/relay_controller.py:15-37 | From any state at t in which a relay believed off is off at both pins, working GPIO from then on: both pins inactive from the bound on; one attempt per write is enough, and ON writes may still fail |
| RelayFaults.NeverSilentlyOnExactlyWhen | app/streaming_agent/relay/security_relay_manager.py:283-330 | For each of the eight kinds of faults, in every run from start-up a relay believed off is off at both pins iff the retry count is at most 0 (nothing is ever switched on), or no reading is wrong and either every write lands, or no reading is missing and a write has two attempts or more |
| RelayFaults.RunStaysKept | app/streaming_agent/relay/security_relay_manager.py:94-257 | Over every run with such faults at any time a relay believed off stays off at both pins, and with landing writes the flags stay equal to the pins |
| RelayFaults.UntrustedSticks | app/streaming_agent/gpio/relay_controller.py:248-260 | For every other kind of fault, every wiring and every configuration, some run of such faults ends with the manager idle, the relay believed off, the GPIO working again and a pin active |
| RelayFaults.MissingReadHidesRaise | app/streaming_agent/gpio/relay_controller.py:248-260 | From both outputs on, one raised OFF write and one missing reading, for every retry count from two: OFF is reported with red active and both flags down, since the second attempt skips red and the readout falls back on the flags |
| RelayFaults.MissingReadsStick | app/streaming_agent/relay/security_relay_manager.py:205-222 | For every retry count from one: OFF writes of red that are lost with their readings missing are reported by the failsafe, and red stays active behind an idle manager |
| RelayFaults.WrongReadsStick | app/streaming_agent/gpio/relay_controller.py:248-260 | For every retry count from one, every write landing: wrong readouts keep an ON write from being reported, and after the clear the pins stay active behind an idle manager |
| RelayFaults.LandingRead | app/streaming_agent/gpio/relay_controller.py:248-260 | While writes land the readout is right whether it comes from the pins or, a reading missing, from the flags |
| RelayFaults.OneAttemptSticks | app/streaming_agent/relay/security_relay_manager.py:283-330 | With a single attempt and truthful readings, for every wiring and configuration: red lands, the buzzer write raises, the detection clears; the manager is idle, the GPIO works again and red is active |
| RelayFaults.FailedOnStaysOff | app/streaming_agent/relay/security_relay_manager.py:283-318 | With truthful readings, an ON write of any number of attempts but one that fails from inactive pins leaves both inactive, whatever writes were lost or raised |
| RelayFaults.OffStaysOff | app/streaming_agent/gpio/relay_controller.py:262-295 | No OFF write, forced or not, ever activates a pin, whatever writes and readings do |
| RelayFaults.StartedIsUnused | app/streaming_agent/gpio/relay_controller.py:133-188 | A successful start leaves the board such a run begins with, whatever faults lie ahead |
| SharedOutputs.SecurityLetsGo | app/streaming_agent/gpio/relay_controller.py:402-458 | Working GPIO, any interleaving with alerts, manual switching and every other caller: with no detection after t the security event has left both source sets from the usual bound on, and each pin is active iff somebody else holds it |
| SharedOutputs.RelayLetsGo | app/streaming_agent/relay/security_relay_manager.py:150-249 | Once the last other user has let go at h, the relay is believed off and both pins are inactive from h + drain + failsafe + 2P on |
| SharedOutputs.FailedFailsafeWaits | app/streaming_agent/relay/security_relay_manager.py:205-222 | One tick is not enough for that: a failsafe that failed while the outputs were shared asks for nothing before its time has passed again |
| SharedOutputs.MixedRunStaysSettled | app/streaming_agent/gpio/relay_controller.py:402-458 | Over every mix of detections, clears, ticks, manual offs and other callers the security event is held only while the relay is believed on, and pins mirror their source sets |
| SharedOutputs.StartIsSettled | app/streaming_agent/gpio/relay_controller.py:133-188 | A fresh manager on a freshly started controller begins such a mix |
| RelayMachine.ActiveSourceMeansPinsActive | app/streaming_agent/relay/security_relay_manager.py:119-203 | In every such run both pins are active while any detection source is |
| RelayMachine.StepStaysFaithful | app/streaming_agent/relay/security_relay_manager.py:283-330 | One step with its hardware writes keeps the manager's belief and both pins equal, and the write it issues succeeds |
| RelayMachine.MachineRunIsRun | app/streaming_agent/relay/security_relay_manager.py:94-257 | Whatever the hardware answers, the manager's run on the board is its abstract run on those answers |
| RelayMachine.StartIsFaithful | app/streaming_agent/gpio/relay_controller.py:133-188 | A fresh manager on a freshly started controller is in that relation |
| SecurityRelayRelease.ReleasedAfterQuiet | app/streaming_agent/relay/security_relay_manager.py:150-249 | From any state a run can reach, failed writes included: with no detection after t, successful OFF writes (ON may fail) and ticks at most P apart, the relay is off, idle and without sources from t + drain + failsafe + 2P on; drain is the ttl, or the larger of ttl and failsafe when an earlier OFF write had failed |
| SecurityRelayRelease.ReleasedWhenWritesSucceed | app/streaming_agent/relay/security_relay_manager.py:150-249 | The stuck-ON bound over a whole run from start-up with successful writes: off, and staying off, from t + ttl + failsafe + 2P on |
| SecurityRelayRelease.ReleasedWithoutClears | app/streaming_agent/relay/security_relay_manager.py:171-249 | With no clear either, the shorter of hold and failsafe counts: off from t + ttl + min(timeout, failsafe) + 2P on; after an earlier failed OFF, from t + failsafe + P on at the earliest |
| SecurityRelayRelease.NeverLeftOn | app/streaming_agent/relay/security_relay_manager.py:119-222 | While writes succeed the manager is never idle with the relay on, and never active with it off |
| SecurityRelayRelease.SettledBoundExactlyWhen | app/streaming_agent/relay/security_relay_manager.py:205-222 | The shorter bound t + ttl + failsafe + 2P holds of every run from start-up, failed writes before t included, iff failsafe <= ttl or there is no hold (timeout <= 0) |
| SecurityRelayRelease.LeftOnOutlastsTheSettledBound | app/streaming_agent/relay/security_relay_manager.py:205-222 | For every configuration with a hold and a failsafe longer than the ttl, some run with one failed OFF is still on past that bound: clears just before the failsafe restart its clock |
| SecurityRelayRelease.NeverReleasedWithoutTtl | app/streaming_agent/relay/security_relay_manager.py:224-227 | With ttl <= 0 no run of ticks ever drops a source and the relay stays on |
| SecurityRelayRuns.StepStaysCoherent | app/streaming_agent/relay/security_relay_manager.py:94-257 | Every step, whatever its writes report: ACTIVE iff sources exist, the event records are kept for exactly the sources, WAITING_OFF only with the relay on and no source |
| SecurityRelayRuns.RunStaysCoherent | app/streaming_agent/relay/security_relay_manager.py:94-257 | The same over every run |
| SecurityRelayRuns.RunStaysRecorded | app/streaming_agent/relay/security_relay_manager.py:150-169 | Over every timed run no record lies in the future and a WAITING_OFF deadline lies at least the timeout after entry and at most the timeout ahead |
| SecurityRelayRuns.AbsentUntilDetected | app/streaming_agent/relay/security_relay_manager.py:119-169 | A cleared source stays out of the source set, over any run, until it is detected again |
| SecurityRelayRuns.DetectionAfterClearIsAccepted | app/streaming_agent/relay/security_relay_manager.py:119-169 | That next detection is never swallowed by the debounce, however soon: it asks for an ON write, makes the source active and is recorded |
| SecurityRelayRuns.NoOffWhileSourceActive | app/streaming_agent/relay/security_relay_manager.py:182-249 | Apart from a manual off, an OFF write is issued only by a tick whose sources are all gone, each of them silent for at least the ttl |
| SecurityRelayRuns.HoldsWhenFailsafeIsLater | app/streaming_agent/relay/security_relay_manager.py:150-222 | If timeout <= failsafe, in every run no OFF write but a manual one comes earlier than timeout after the latest entry into WAITING_OFF |
| SecurityRelayRuns.FailsafeCutsHoldShort | app/streaming_agent/relay/security_relay_manager.py:205-222 | If the failsafe is shorter, some run breaks the hold: the failsafe fires first |
| SecurityRelayRuns.HoldGuaranteeExactlyWhen | app/streaming_agent/relay/security_relay_manager.py:150-222 | The hold guarantee is true of every run from start-up iff timeout <= failsafe |
| RelayTicks.SourceExpires | app/streaming_agent/relay/security_relay_manager.py:224-249 | With a positive ttl and ticks at most P apart, in every run a source not detected after t is gone from t + ttl + P on, whatever is detected of the others and whatever writes report |
| RelayTicks.TickLeavesTheYoung | app/streaming_agent/relay/security_relay_manager.py:224-249 | A tick leaves exactly the sources whose record is younger than the ttl (all of them with expiry off), each with its record |
| RelayTicks.YoungSourcesAreServed | app/streaming_agent/relay/security_relay_manager.py:171-185 | While some source is young a tick asks for ON if the relay is off, for every ttl, and for nothing if it is on |
| RelayTicks.StaleSourcesAreDropped | app/streaming_agent/relay/security_relay_manager.py:182-222 | With none, a tick asks for a forced OFF iff the relay is on and has been where it is for the failsafe, for a plain OFF iff the hold is over before that, else for nothing; sources, lifecycle and deadline follow |
| RelayTicks.DetectLeaves | app/streaming_agent/relay/security_relay_manager.py:119-148 | A detection is swallowed iff the source's record is younger than the debounce (0.0 counting as none); else it renews record and deadline, and asks for ON iff the source was not there |
| RelayTicks.ClearLeavesTheOthers | app/streaming_agent/relay/security_relay_manager.py:150-169 | A clear takes its source and record and nothing of the others; lifecycle, hold and change time by what remains, a clear of an absent source included |
| RelayTicks.OffForgets | app/streaming_agent/relay/security_relay_manager.py:94-102 | A manual off always, and a timed OFF when it succeeds, leaves no source, record or deadline |
| DetectionDelivery.RisingReachesRelay | app/streaming_agent/relay/security_relay_manager.py:340-352 | For each of the three sources, from any reachable state with its flag down: the report that raises it asks for ON and puts the source, recorded now, among the others |
| DetectionDelivery.FallingReachesRelay | app/streaming_agent/relay/security_relay_manager.py:340-352 | The report that lowers it takes the source away, asks for no write and starts the hold if it was the last |
| DetectionDelivery.SteadyReachesRelay | app/streaming_agent/detection/state_manager.py:174-203 | A report that keeps it up is published again iff the refresh interval has passed; then the record is renewed unless the debounce swallows it, and an expired source comes back with an ON |
| DetectionDelivery.OthersReachNothing | app/streaming_agent/relay/security_relay_manager.py:340-352 | No other report moves the relay: not faces or hands alone, not the external person, not other cameras |
| DetectionDelivery.RisingReachesPins | app/streaming_agent/detection/state_manager.py:125-172 | On working GPIO both pins are active right after the report that raises any of the three |
| DetectionDelivery.ReportSetsFlags | app/streaming_agent/detection/state_manager.py:80-116 | A presence report sets its three flags and a tamper report its one, on its own camera and nowhere else |
| DetectionDelivery.RefreshSecondsMeaning | app/streaming_agent/detection/state_manager.py:61-64 | The refresh interval is a quarter second by default, the configured one otherwise, never below a tenth |
| KeepAlive.KeptAliveExactlyWhen | app/streaming_agent/detection/state_manager.py:137-203 | A person reported at gaps up to g keeps the source held, no OFF write asked for and a relay the first report switched on still on, in every run, iff expiry is off or reach <= ttl, where reach is the lag of the swallowed refreshes plus refresh plus g; n refreshes, the most that fit strictly inside the debounce, lag by the debounce or n (refresh + g), whichever is shorter |
| PipelineMachine.PersonKeepsPinsActive | app/streaming_agent/detection/state_manager.py:137-203 | Down to the hardware: from any state the device reaches with nobody present, the first report of a person makes both pins active, and they are active after every further step while reports keep coming within the gap |
| PipelineMachine.RunStaysSound | app/streaming_agent/relay/security_relay_manager.py:80-92 | The whole chain over every run on working GPIO: flags, event log, sources, belief and both pins stay in agreement |
| PipelineMachine.DrivenIsMachineStep | app/streaming_agent/relay/security_relay_manager.py:80-92 | Each report, tick or manual off moves relay manager and board as exactly one relay event, or not at all |
| KeepAlive.PersonKeepsRelayOn | app/streaming_agent/detection/state_manager.py:137-203 | From any reachable state with nobody present, on a positive clock: once a person is reported and reports keep coming within the gap, the internal person source never expires, no OFF write is issued, and a relay that was switched on stays on, provided the reach fits in the ttl |
| KeepAlive.StaysWarm | app/streaming_agent/detection/state_manager.py:174-203 | The same from any state in which the last report, refresh and accepted detection are within their windows |
| KeepAlive.TickKeepsPerson | app/streaming_agent/relay/security_relay_manager.py:224-249 | A tick that finds the person's record younger than the ttl keeps the source and its record and issues no OFF write |
| KeepAlive.WindowsMustFitTheTtl | app/streaming_agent/relay/security_relay_manager.py:119-131 | For every configuration whose reach exceeds the ttl, some run of timely reports ends with a tick that drops the source of a person still being reported |
| Pipeline.StepKeepsAgreement | app/streaming_agent/detection/state_manager.py:125-172 | Whenever the state manager's lock is free: relay sources are among the flags currently true, every published flag equals the last event published for it, every CLEARED ends its own active period |
| Pipeline.RunKeepsAgreement | app/streaming_agent/relay/security_relay_manager.py:80-92 | The same after every run of reports, ticks and manual offs |
| Pipeline.BootAgrees | app/streaming_agent/detection/state_manager.py:25-78 | It holds at start-up |
| Pipeline.SourcesStayFlagged | app/streaming_agent/relay/security_relay_manager.py:340-352 | Every relay source names a flag that is currently true; external person never becomes a source |
| Pipeline.LogAfter | app/streaming_agent/detection/state_manager.py:246-254 | After each step the last event published for a person or tamper signal says exactly what its flag says |
| PersonPresence.StepRefinesTimer | app/streaming_agent/detection/person_detector.py:802-960 | Each frame update and idle poll of the four-signal debouncer moves the one presence timer: visible starts when a streak reaches its trigger and lasts while raw hits are less than the timeout apart |
| PersonPresence.RunRefinesTimer | app/streaming_agent/detection/person_detector.py:802-960 | Over every clocked input run the visible output is the timer's |
| PersonPresence.ChannelMeaning | app/streaming_agent/detection/person_detector.py:830-904 | Each signal by its history alone: raised by the trigger number of hits in a row, dropped by the clear number of misses in a row once the last hit is more than the clear time ago |
| PersonPresence.UnheldFrame | app/streaming_agent/detection/person_detector.py:906-946 | With no hold a frame without any hit drops every signal; any other frame shows whatever signal is up |
| PersonPresence.FrameKeepsSightings | app/streaming_agent/detection/person_detector.py:948-960 | A frame moves the last sighting of exactly the signals it hit, expiry or not |
| PersonPresence.TimerIgnoresClearing | app/streaming_agent/detection/person_detector.py:802-946 | The timer's output depends on triggers and timeout only |
| PersonPresence.SlowTriggerShowsClearing | app/streaming_agent/detection/person_detector.py:802-946 | With no hold and a trigger above one frame, two detectors differing only in clear frames show different output on a constructed run |
| PersonPresence.ClearSettingsNeverShowExactlyWhen | app/streaming_agent/detection/person_detector.py:802-960 | Clear frames and clear seconds are invisible on all input runs iff the timeout is positive or every trigger is one frame |
| TamperWatch.ManagerFlagIsAlarm | app/streaming_agent/detection/tamper_detection.py:217-383 | Over every history, among any other reports to the state manager: its tamper flag for this camera equals the alarm read off the observation history, and is up exactly in ACTIVE and CLEARING |
| TamperWatch.FlagIsAlarm | app/streaming_agent/detection/tamper_detection.py:217-383 | For every history of observations and pauses: the state machine, the last report it made and an alarm read off the history alone agree |
| TamperWatch.StreakMeaning | app/streaming_agent/detection/tamper_detection.py:328-383 | A streak is the maximal run of latest observations with that outcome, unbroken by a pause |
| TamperWatch.FlagEdges | app/streaming_agent/detection/tamper_detection.py:328-383 | The flag rises only after max(2, trigger) consecutive tampered observations spanning the confirm time, and falls without a pause only after as many clean ones spanning the clear time |
| RelayWriteFacts.ReportsAreTruthful | app/streaming_agent/relay/security_relay_manager.py:283-330 | Arbitrary write faults, truthful reads: an OFF write that reports success has left both pins inactive; an ON write that does has left a pin active |
| RelayWriteFacts.RetriesAreTruthful | app/streaming_agent/relay/security_relay_manager.py:283-318 | The same for the retry loop of any length |
| RelayWriteFacts.LostWritesAreRetried | app/streaming_agent/gpio/relay_controller.py:460-482 | With truthful reads a write reaches its target iff fewer writes in a row are lost than it has attempts |
| RelayWriteFacts.RaisedRedEndsCall | app/streaming_agent/gpio/relay_controller.py:262-295 | A red write that raises ends an alert, and the force path with its direct writes, before anything else is written |
| RelayWriteFacts.ForceStarts | app/streaming_agent/gpio/relay_controller.py:262-273 | The force path first starts a stopped controller; every channel then ends off |
| RelayWriteFacts.DryRunFollowsFlags | app/streaming_agent/gpio/relay_controller.py:460-463 | Without a GPIO backend ON and OFF move the flags, touch no pin and are reported from the flags |
| RelayWriteFacts.NoAttempts | app/streaming_agent/relay/security_relay_manager.py:283-330 | With no attempts configured ON and a forced OFF do nothing, a plain OFF still gets its forced try |
| RelayWriteFacts.OnReportMayMissTheBuzzer | app/streaming_agent/gpio/relay_controller.py:248-260 | On every wiring and for every retry count: when the red write lands and the buzzer write is lost in all its attempts, ON is reported with the buzzer inactive |
| RelayWriteFacts.OnDrivesExactlyWhen | app/streaming_agent/relay/security_relay_manager.py:283-318 | With the GPIO working again, for each of the two pins: an ON write leaves it active iff its flag was not yet set or it was active already; the write is reported iff one of the two is active |
| RelayWriteFacts.OnDrivesBothExactlyWhen | app/streaming_agent/relay/security_relay_manager.py:283-318 | So both relays are driven iff neither flag is ahead of its pin |
| RelayWriteFacts.OnNeverRewritten | app/streaming_agent/gpio/relay_controller.py:446-458 | With both output flags set and both pins inactive (lost ON writes), an ON write of any number of attempts touches no pin and never succeeds |
| RelayWriteFacts.OnReportedExactlyWhen | app/streaming_agent/relay/security_relay_manager.py:283-318 | With the GPIO working again, an ON write is reported as successful iff one of the output flags is not yet set or one of the pins is already active; the report says nothing of the other pin |
| RelayWriteFacts.OffAlwaysRecovers | app/streaming_agent/gpio/relay_controller.py:262-295 | With the GPIO working again and no other holder, an OFF write succeeds from every combination of flags and pins that faults left behind |
| RelayWriteFacts.OnWorks | app/streaming_agent/gpio/relay_controller.py:239-242 | On working GPIO an ON write succeeds, drives both pins and adds only the security source |
| RelayWriteFacts.OffWorksIffUnshared | app/streaming_agent/relay/security_relay_manager.py:283-330 | On working GPIO an OFF write succeeds iff no other source holds red or buzzer, removes only the security source, and leaves other holders' outputs, locker and green alone, on the force path too |
| RelayBoardFacts.OpKeepsMirrored | app/streaming_agent/gpio/relay_controller.py:196-295 | Working GPIO, distinct pins: after any controller call each pin is active iff its flag, red and buzzer iff their source sets are non-empty, security is held on both or neither, other holders move only as the call says |
| RelayBoardFacts.RunKeepsMirrored | app/streaming_agent/gpio/relay_controller.py:402-458 | The same over every sequence of calls; the other holders of each output are exactly those the calls leave |
| RelayBoardFacts.LevelsOfMirrored | app/streaming_agent/gpio/relay_controller.py:497-505 | After any run of calls on working GPIO each pin is low iff its output's activity agrees with the active-low setting |
| RelayBoardFacts.WorkingForce | app/streaming_agent/gpio/relay_controller.py:262-295 | The direct force path drops only the security source and leaves both pins showing what is left |
| RelayBoardFacts.AlertDriven | app/streaming_agent/gpio/relay_controller.py:325-345 | An alert source is added to or dropped from both outputs, both pins following |
| RelayBoardFacts.OpKeepsLocker | app/streaming_agent/gpio/relay_controller.py:196-295 | No call but unlock and lock moves the locker's flag or pin, whatever writes and reads do; a stopped controller's start idles it or, giving up, may let it float |
| RelayBoardFacts.LostRelockStays | app/streaming_agent/gpio/relay_controller.py:216-232 | After a lost relock (flag down, pin active) no sequence of calls without a new unlock brings the pin back, whatever the hardware does; lock calls return early |
| RelayBoardFacts.RaisedRelockIsLost | app/streaming_agent/gpio/relay_controller.py:224-232 | A lock call whose pin write raises leaves the flag down and the pin active |
| RelayBoardFacts.LockWorksExactlyWhen | app/streaming_agent/gpio/relay_controller.py:224-232 | On working GPIO a lock call leaves the locker pin inactive iff the flag was up or the pin was inactive already |
| RelayBoardFacts.StartedIsMirrored | app/streaming_agent/gpio/relay_controller.py:133-188 | A successful start leaves all four pins inactive and no source held |
| OfflineQueueFacts.QueueRefinesLog | app/core/mqtt_manager.py:429-436 | After any sequence of enqueues the pending map, in order, is the last max_pending entries of the log thinned to each topic's last message |
| OfflineQueueFacts.LastPerTopicMeaning | app/core/mqtt_manager.py:429-436 | The thinned log holds exactly the entries no later entry of their topic follows, each topic once |
| OfflineQueueFacts.NewestThenEnqueue | app/core/mqtt_manager.py:429-436 | Evicting before or after an enqueue gives the same queue |
| OfflineQueueFacts.LastPerTopicAppend | app/core/mqtt_manager.py:429-432 | Appending to the log replaces the topic's entry and moves it to the end |
| OfflineQueueFacts.FlushDeliversPrefix | app/core/mqtt_manager.py:438-446 | A flush delivers a prefix of the pending order; a refusal at k leaves pending[k+1..] followed by pending[k]; a lost connection leaves the rest as it was |
| OfflineQueueFacts.FlushConserves | app/core/mqtt_manager.py:438-446 | Pending and delivered messages together are the same multiset before and after a flush: nothing lost, evicted or sent twice |
| OfflineQueueFacts.NothingIsDuplicated | app/core/mqtt_manager.py:278-304 | Over any session of publishes, failures, evictions and flushes no message is held or delivered more often than it was offered |
| OfflineQueueFacts.DirectPublishIsOvertaken | app/core/mqtt_manager.py:278-304 | A direct publish followed by a flush delivers an older message of the same topic after the newer one exactly when that topic was pending |
| DeliveryOrder.KeepsOrderExactlyWhen | app/core/mqtt_manager.py:278-304 | Over any session of publishes and flushes of messages that can be told apart: every topic is delivered in the order offered, however far the session has come when a complete flush follows, iff no direct publish ever meets its own topic pending |
| DeliveryOrder.DeliveredInOrder | app/core/mqtt_manager.py:429-446 | Without such a meeting every session delivers every topic in the order offered, equal messages, refusals, replacements and evictions included |
| DeliveryOrder.OvertakenIsOutOfOrder | app/core/mqtt_manager.py:278-304 | With one, for a message not offered before, the next complete flush is out of order |
| OfflineQueue.WithoutKeeps | app/core/mqtt_manager.py:429-431 | Popping a topic removes that entry only and keeps order and distinctness |
| CommandWindow.WindowMeaning | app/hardware_agent/mqtt_client.py:200-213 | The window is exactly the last Memory(n) of n accepted ids: all up to 1000, then 500 growing back to 1000 |
| CommandWindow.WindowBounds | app/hardware_agent/mqtt_client.py:200-213 | An id among the last 500 accepted is rejected; one outside the last 1000 is not |
| CommandWindow.RunIsSpaced | app/hardware_agent/mqtt_client.py:165-167 | Over any stream of commands, two equal accepted ids have at least 500 other acceptances between them |
| UnlockCycle.StepKeepsKeys | app/streaming_agent/detection/qr_scanner.py:457-532 | Validation workers alive hold pairwise distinct keys, exactly the keys in flight, at every interleaving step |
| UnlockCycle.RunsAreSafe | app/streaming_agent/gpio/relay_controller.py:300-383 | Every interleaving with every other caller of the controller, any faults: unique in-flight keys, at most one unlock worker, the locker flag up only inside a running cycle, cycles <= accepted scans <= reservations, each hold at least a second |
| UnlockCycle.LockerPinFollowsCycle | app/streaming_agent/gpio/relay_controller.py:367-383 | On working GPIO, in every such interleaving, the locker pin is active only while a worker is between its unlock and its relock |
| UnlockCycle.StepKeepsCounts | app/streaming_agent/detection/qr_scanner.py:481-506 | Each backend acceptance is charged to its own reservation and starts at most one cycle |
| UnlockCycle.CycleEnds | app/streaming_agent/gpio/relay_controller.py:367-383 | From any point a cycle left to itself ends, within the actions it has left (at most seven), without a worker, ready for the next one and with the locker flag down, whichever of its actions raise; the pin is the subject of the next two rows |
| UnlockCycle.EndsLockedExactlyWhen | app/streaming_agent/gpio/relay_controller.py:367-383 | On working GPIO, from any flags and pins that faults left: the cycle ends with the locker pin inactive iff it has not unlocked yet, or the locker flag is up, or the pin is inactive; so the next whole cycle repairs a lost relock |
| UnlockCycle.RaisedRelockEndsOpen | app/streaming_agent/gpio/relay_controller.py:367-383 | When the relock write raises, the cycle ends with the flag down and the locker pin still active |
| UnlockCycle.CleanCycleInOrder | app/streaming_agent/gpio/relay_controller.py:367-383 | In a cycle on a mirrored board the green pin becomes active before the locker pin and inactive after it, and both are inactive at the end |
| UnlockCycle.NoYesNoUnlock | app/streaming_agent/detection/qr_scanner.py:860-863 | Without an answer in which success and can_open_locker are both the literal true, no interleaving with any other caller ever raises the locker flag, nor activates its pin on a started controller (or one whose starts do not let it float), whatever the hardware does |
| UnlockCycle.YesStartsOneCycle | app/streaming_agent/detection/qr_scanner.py:496-506 | An answer with success and can_open_locker both true starts exactly one cycle if none runs, at its first action, for the seconds given by the answer's own fields (at least one; the default if absent or unreadable), and none during a running cycle; either way it counts |
| UnlockCycle.YesOpens | app/streaming_agent/gpio/relay_controller.py:300-313 | On a mirrored board the locker pin is then active after three actions and inactive again after five |
| UnlockCycle.NoStartsNothing | app/streaming_agent/detection/qr_scanner.py:860-863 | Any other answer, or none, starts nothing and counts nothing |
| UnlockCycle.YesAsks | app/streaming_agent/detection/qr_scanner.py:865-872 | The seconds requested, by the kind of value the answer carries |
| UnlockCycle.RaisedEarlyNeverOpens | app/streaming_agent/gpio/relay_controller.py:367-383 | A raise before the unlock ends the cycle without opening: straight to the relock, the locker untouched |
| UnlockCycle.RaisedUnlockIsRelocked | app/streaming_agent/gpio/relay_controller.py:367-383 | A raise in the unlock goes straight to the relock with the flag still up, so the pin is written |
| UnlockCycle.FirstActionDropsAlert | app/streaming_agent/gpio/relay_controller.py:367-372 | The first action takes the failure alert off both outputs, the pins following |
| UnlockCycle.ReservedWithoutSuppression | app/streaming_agent/detection/qr_scanner.py:457-479 | With local suppression off, after every interleaving from start-up a token is reserved iff no live scan holds its key, and is then live itself |
| UnlockCycle.CyclesAreAsked | app/streaming_agent/detection/qr_scanner.py:496-506 | Over every interleaving from start-up each unlock worker comes from an explicit yes and holds for the time that very answer asked |
| UnlockCycle.UnlockIsAtLeastASecond | app/streaming_agent/detection/qr_scanner.py:865-872 | The hold requested is at least one second whatever the backend sends |
| UnlockCycle.ReservationsAreSpaced | app/streaming_agent/detection/qr_scanner.py:457-479 | With local suppression on, accepted reservations are pairwise a cooldown apart, those of one key also the cache time apart |
| UnlockCycle.ReservedExactlyWhen | app/streaming_agent/detection/qr_scanner.py:457-479 | After any interleaving a token is reserved iff its key is not in flight, every accepted reservation is a cooldown old and every one of its key the cache time old |
| UnlockCycle.RunKeepsRecords | app/streaming_agent/detection/qr_scanner.py:593-596 | Cooldown and cache hold deadlines of accepted reservations only, and no live deadline is ever expired early |
| UnlockCycle.OpeningIsSafe | app/streaming_agent/detection/qr_scanner.py:125-178 | The start state satisfies what RunsAreSafe asks |
| NmcliFields.RoundTrip | app/hardware_agent/scanner.py:217-237 | Escaping colon and backslash in n >= 1 fields, joining with colons and splitting gives the fields back |
| NmcliFields.SplitHasExpectedFields | app/hardware_agent/scanner.py:217-237 | On every line the result has exactly `expected` entries (one, if expected < 1) |
| NmcliFields.PrintingIsInjective | app/hardware_agent/scanner.py:217-237 | Two field lists of one length never print to the same line |
| NmcliFields.SplitIsStable | app/hardware_agent/scanner.py:217-237 | Printing what was split and splitting again changes nothing, for every line |
| NmcliFields.PlainLineIsKept | app/hardware_agent/scanner.py:217-237 | Without escapes nothing is lost: the fields joined by colons are the line, filled up with empty fields, extra colons staying in the last; earlier fields hold no colon |
| NmcliFields.OpenEscapeIsDropped | app/hardware_agent/scanner.py:217-237 | An escape left open at the end of the line is dropped |
| NmcliFields.JoinedIsRead | app/hardware_agent/scanner.py:217-237 | The same from any point of the scan with room for the fields |
| NmcliFields.SplitNmcli | app/hardware_agent/scanner.py:217-237 | The character loop computes that split, padding included |
| WifiCandidates.BuildCandidates | app/hardware_agent/reconnect_policy.py:53-93 | Returns exactly one candidate per saved, non-empty stripped SSID whose strongest normalised reading reaches the minimum and whose last saved record is out of backoff, with that reading; ordered by stronger signal, then higher priority, later success, fewer failures, earlier place in the scan, all said of the candidates' fields |
| WifiCandidates.SortRanks | app/hardware_agent/reconnect_policy.py:84-93 | The stable sort by reversed score gives that order, said of the candidates' fields |
| WifiCandidates.FirstIsStrongest | app/hardware_agent/reconnect_policy.py:84-93 | The first candidate has the strongest signal of all that qualify |
| WifiCandidates.StripMeaning | app/hardware_agent/reconnect_policy.py:60-62 | Stripping takes off exactly the white space at both ends |
| WifiCandidates.OtherReadings | app/hardware_agent/reconnect_policy.py:44-51 | A missing reading is -999, a float counts as its integer towards zero |
| WifiCandidates.PickQualifies | app/hardware_agent/reconnect_policy.py:60-92 | The strongest reading the loop keeps is the only candidate its SSID can have, and one iff not in backoff |
| WifiCandidates.NormalizeMeaning | app/hardware_agent/reconnect_policy.py:44-51 | Percentages 0..100 become half of it, rounded up, less 100; normalising twice changes nothing; the scanner's own conversion agrees with it on the clamped percentage and lies in -100..-50 |
| WifiFilter.Deduplicate | app/hardware_agent/scanner.py:69-80 | Keeps, for each non-empty SSID, the first of its strongest readings and nothing else, the stronger first, equal ones by name |
| WifiFilter.KeptExists | app/hardware_agent/scanner.py:69-80 | Every SSID heard keeps a reading |
| WifiFilter.PreFilterIsHarmless | app/hardware_agent/scanner.py:69-80 | De-duplicating first changes no candidate, for every configuration, saved list and time, when the strongest raw reading is also strongest once normalised |
| WifiFilter.HiddenSignalLosesCandidate | app/hardware_agent/reconnect_policy.py:44-51 | Where mixed units hide a stronger signal behind a larger raw number, some configuration loses a candidate |
| WifiFilter.PreFilterHarmlessExactlyWhen | app/hardware_agent/scanner.py:69-80 | On stripped SSIDs, de-duplication is harmless iff raw and normalised maxima agree for every SSID |
| WifiFilter.OneUnitAgrees | app/hardware_agent/reconnect_policy.py:44-51 | They agree when all readings are negative dBm, or all are percentages |
| WifiFilter.BestScoreIsShared | app/hardware_agent/reconnect_policy.py:53-93 | Candidate lists built on either scan hold the same candidates, and their first ones agree in signal, priority, last success and failures |
| WifiFilter.TextLessMeaning | app/hardware_agent/scanner.py:69-80 | Names compare as a proper prefix or by the first differing character |
| WifiFilter.SwitchGrantedExactlyWhen | app/hardware_agent/reconnect_policy.py:95-124 | A switch is granted to any candidate while disconnected; between two networks iff the cooldown has passed and the current signal is below the minimum or the gain reaches the hysteresis |
| WifiFilter.DisconnectedJoinsStrongest | app/hardware_agent/reconnect_policy.py:95-124 | A disconnected device joins iff some candidate qualifies, and then the strongest |
| WifiFilter.NoPingPong | app/hardware_agent/reconnect_policy.py:95-124 | After such a switch the way back is refused at any later time while readings stay the same |
| RelayBoard.RelayController.constructor | app/streaming_agent/gpio/relay_controller.py:83-120 | A new controller is disabled, with no source held and every flag off |
| RelayBoard.RelayController.Start | app/streaming_agent/gpio/relay_controller.py:133-188 | Idempotent once enabled; success drives every pin inactive and resets sources and flags; failure changes only the port, where pins it claimed are idle and pins it released float |
| RelayBoard.RelayController.WritePin | app/streaming_agent/gpio/relay_controller.py:460-482 | The retry loop performs the write, readback and retry sequence of the specification, exceptions included |
| RelayBoard.RelayController.ApplyRed | app/streaming_agent/gpio/relay_controller.py:446-451 | Writes the red pin only when the flag differs from the source set, the flag first |
| RelayBoard.RelayController.ApplyBuzzer | app/streaming_agent/gpio/relay_controller.py:453-458 | The same for the buzzer |
| RelayBoard.RelayController.SetRedSource | app/streaming_agent/gpio/relay_controller.py:421-428 | One source added to or taken from red, then red applied |
| RelayBoard.RelayController.SetBuzzerSource | app/streaming_agent/gpio/relay_controller.py:430-437 | One source added to or taken from the buzzer, then the buzzer applied |
| RelayBoard.RelayController.SetSecurityRelays | app/streaming_agent/gpio/relay_controller.py:402-419 | Both sets change before either output is driven; a failing red write skips the buzzer |
| RelayBoard.RelayController.ClearAlertSource | app/streaming_agent/gpio/relay_controller.py:439-444 | The source leaves both sets, then both outputs are applied |
| RelayBoard.RelayController.SetAlert | app/streaming_agent/gpio/relay_controller.py:325-345 | An alert drives red, then buzzer, one source set at a time |
| RelayBoard.RelayController.ForceSecurityRelaysOff | app/streaming_agent/gpio/relay_controller.py:262-295 | Starts if needed, drops the security source, applies, then writes every output nobody holds off directly |
| RelayBoard.RelayController.WriteOffEmpty | app/streaming_agent/gpio/relay_controller.py:282-293 | The direct writes touch an output only if nobody holds it |
| RelayBoard.RelayController.IsSecurityRelaysOn | app/streaming_agent/gpio/relay_controller.py:248-260 | Pin readback when both pins can be read, else the flags |
| RelayBoard.RelayController.SetLocker | app/streaming_agent/gpio/relay_controller.py:216-232 | The locker pin is written only on a change of the flag, the flag first |
| RelayBoard.RelayController.SetGreen | app/streaming_agent/gpio/relay_controller.py:196-208 | The same for the green LED |
| SecurityRelay.SecurityRelayManager.constructor | app/streaming_agent/relay/security_relay_manager.py:41-66 | A new manager is idle, off and empty |
| SecurityRelay.SecurityRelayManager.Transition | app/streaming_agent/relay/security_relay_manager.py:251-257 | The change time moves only when the state does |
| SecurityRelay.SecurityRelayManager.ExecuteRelayWrite | app/streaming_agent/relay/security_relay_manager.py:283-330 | The verified retry loop with its final forced attempt; the believed relay state changes only on a verified write |
| SecurityRelay.SecurityRelayManager.HandleDetected | app/streaming_agent/relay/security_relay_manager.py:119-148 | New manager and board state for every source, time and hardware answer; accepted iff not debounced |
| SecurityRelay.SecurityRelayManager.HandleCleared | app/streaming_agent/relay/security_relay_manager.py:150-169 | New state of every clear: remaining sources, hold, idle, or the clear of an inactive source while the relay is on |
| SecurityRelay.SecurityRelayManager.ExpireStaleSources | app/streaming_agent/relay/security_relay_manager.py:224-249 | Drops exactly the sources whose last record is a ttl old and moves the lifecycle accordingly; nothing if ttl <= 0 |
| SecurityRelay.SecurityRelayManager.RunFailsafe | app/streaming_agent/relay/security_relay_manager.py:205-222 | Fires exactly when no source is left, the relay is on and the state is at least the failsafe old |
| SecurityRelay.SecurityRelayManager.Tick | app/streaming_agent/relay/security_relay_manager.py:171-203 | One worker pass: expiry, failsafe, ON retry or timed OFF, issuing at most one write |
| SecurityRelay.SecurityRelayManager.ForceOff | app/streaming_agent/relay/security_relay_manager.py:94-102 | Everything dropped, then one forced OFF write |
| DetectionState.DetectionStateManager.constructor | app/streaming_agent/detection/state_manager.py:25-78 | Two known cameras, all signals inactive; refresh interval at least 0.1 s |
| DetectionState.DetectionStateManager.HandleDetectionEvent | app/streaming_agent/relay/security_relay_manager.py:80-92 | Person and tamper of the internal camera and tamper of the external one reach the relay manager; every other event is dropped |
| DetectionState.DetectionStateManager.UpdateSignal | app/streaming_agent/detection/state_manager.py:125-203 | Camera record, published event and the relay and board state it leads to, for changes, refreshes and repeats |
| DetectionState.DetectionStateManager.UpdatePresence | app/streaming_agent/detection/state_manager.py:80-97 | Face, hand and person reported in turn; only person can publish |
| DetectionState.DetectionStateManager.UpdateTamper | app/streaming_agent/detection/state_manager.py:99-104 | The tamper report and the event it publishes |
| DetectionState.DetectionStateManager.ClearPresence | app/streaming_agent/detection/state_manager.py:106-111 | All presence signals inactive, at most one CLEARED, no relay write |
| DetectionState.DetectionStateManager.ClearTamper | app/streaming_agent/detection/state_manager.py:113-116 | The same for tamper |
| PersonPresence.PersonDetector.constructor | app/streaming_agent/detection/person_detector.py:90-224 | A new detector has seen nothing and shows nothing |
| PersonPresence.PersonDetector.DebounceAll | app/streaming_agent/detection/person_detector.py:824-904 | The four signals debounced on the raw observation and the time of the last raw hit |
| PersonPresence.PersonDetector.UpdateLedState | app/streaming_agent/detection/person_detector.py:802-946 | One frame: the new debouncer state, the person flag reported equals visible, and the state manager, event log, relay and board that report leads to |
| PersonPresence.PersonDetector.ExpireInternalPresence | app/streaming_agent/detection/person_detector.py:948-960 | Streaks and activity dropped, last-seen times kept |
| PersonPresence.PersonDetector.ClearStale | app/streaming_agent/detection/person_detector.py:382-404 | The idle poll clears everything, and reports every presence signal inactive, exactly when a visible person was last sighted the timeout ago; otherwise nothing changes |
| TamperWatch.TamperDetector.UpdateTamperState | app/streaming_agent/detection/tamper_detection.py:328-383 | One observation: the new watch, and the state manager's record, event log, relay and board, which change only on confirmation or clearing |
| TamperWatch.TamperDetector.PauseTamperState | app/streaming_agent/detection/tamper_detection.py:217-228 | Back to rest; record, event log and relay move only if the flag was up |
| TamperWatch.TamperDetector.ClearStale | app/streaming_agent/detection/tamper_detection.py:230-237 | Frames stale for long enough count as one clean observation, with all it leads to |
| OfflineQueue.PendingQueue.QueuePublish | app/core/mqtt_manager.py:429-436 | The topic's entry is replaced and moved to the end, the oldest evicted above the limit |
| OfflineQueue.PendingQueue.Publish | app/core/mqtt_manager.py:278-304 | Delivered at once, or queued on request when disconnected or refused |
| OfflineQueue.PendingQueue.Flush | app/core/mqtt_manager.py:438-446 | The loop terminates with the specified pending and delivered messages |
| CommandWindow.DuplicateFilter.IsDuplicateCommand | app/hardware_agent/mqtt_client.py:200-213 | Rejects by the accepted history alone; list and set stay the same distinct ids |
| CommandWindow.DuplicateFilter.Admit | app/hardware_agent/mqtt_client.py:165-167 | A command without an id is never filtered or recorded |
| QrScanner.TokenDesk.ReserveToken | app/streaming_agent/detection/qr_scanner.py:457-479 | Expiry, in-flight check, cooldown, cache and the records an acceptance leaves |
| QrScanner.TokenDesk.FinishScan | app/streaming_agent/detection/qr_scanner.py:530-532 | Only the worker's own key is released |

## Left out

- Second clock readings inside one step (the transition time, the handling time of an event): one reading stands for both.
- Logging, metrics, log throttling, sleeps, condition waits, thread start and stop, singletons.
- Confidence, human score and reasons carried by events; other event-bus subscribers and the bus swallowing their exceptions.
- Controllers without `is_security_relays_on`, and the relay manager's `_gpio_state` fallback for them.
- RelayBoard.RelayController.Start: the two backends tried in turn are one attempt, described by the pins it leaves claimed and the levels to which it lets others float.
- `trigger_alert`'s throttling and the alert worker's timing (an alert's two edges are modelled), `cleanup`, and a second controller on the same pins.
- RelayMachine.RunStaysFaithful: assumes no other user of red and buzzer, because with another holder an OFF write rightly reports failure (RelayWriteFacts.OffWorksIffUnshared); SharedOutputs covers that case.
- KeepAlive.PersonKeepsRelayOn: covers person only; tamper is reported on state edges, so nothing refreshes a tamper source.
- RelayBoardFacts.RunKeepsMirrored: assumes a GPIO that works; what survives faults is stated in RelayWriteFacts, RelayFaults, RelayRecovery and, for the locker, in RelayBoardFacts.
- RelayRecovery.NeverStuckOnExactlyWhen: assumes no other user of red and buzzer; with others, on working GPIO, see SharedOutputs. Faults together with other users are not modelled.
- UnlockCycle: validation and unlock workers are steps on a value rather than objects, so sharing and update in place are not captured there; direct lock and unlock calls, `Thread.start` failing and durations that are not finite numbers are not modelled.
- WifiCandidates.BuildCandidates: the default for `now` and the text fields of a saved record are not modelled.
- QR parsing and payload checks, the HTTP call, result publishing; text that `int()` reads is given by the value read.
- Image processing, model inference, baselines and ROI: their verdicts are arbitrary inputs; detector stop paths.
- A flush racing with an enqueue, connection management, JSON encoding and request routing in the MQTT clients; command ids are strings.
- iw and iwlist parsers, the subprocess calls and `_safe_int`.
- The hardware agent's network state machine, storage, BLE, telemetry, registration and configuration loading.
