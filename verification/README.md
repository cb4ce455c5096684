# Verified model of the linuxptp-daemon grandmaster core

This project models, in Dafny, the parts of linuxptp-daemon that decide what a PTP grandmaster tells the network, and
proves what they promise over all inputs and all runs:

- the event handler: events of GNSS, DPLL and ts2phc fold into process states, into a grandmaster state and clock
  class, and into clock class requests that a worker applies to the PMC record;
- the DPLL state machine with its holdover goroutine, its linear drift and the timers derived from it;
- the leap-second manager: the event table, the cached UTC offset, the one-shot PMC announcement and the file's text;
- the text form of the PMC settings record;
- the scanners for PCI vital product data and for the sections of a SyncE configuration.

`dafny verify dfyconfig.toml` checks everything.

## How it is organised

| file | content |
|---|---|
| `PtpTypes.dfy`, `Text.dfy` | shared vocabulary; fields, lines and numbers in text |
| `Stats.dfy`, `Grandmaster.dfy` | per-process records; the handler's turn as a function of its state |
| `EventHandler.dfy` | the handler as an object whose methods are proved against `Grandmaster` |
| `GrandmasterProofs.dfy`, `GrandmasterRuns.dfy` | invariants and histories over whole runs; runs that depart from the documented table |
| `LastWriter.dfy`, `GrandmasterHistory.dfy` | last-writer-wins and delivery order; table, flags, records and requests told by the events of the run |
| `ClassRequests.dfy` | the request protocol as a state machine: senders, one-slot channel, worker, PMC record |
| `Settings.dfy`, `SettingsText.dfy`, `Pmc.dfy` | the PMC settings record: printing, matching, updating; its text token by token; reading it with retries |
| `HoldoverTimer.dfy` | drift, rounding and timers over exact rationals |
| `Dpll.dfy`, `DpllProofs.dfy`, `DpllDecisions.dfy`, `DpllObject.dfy` | the DPLL as a state machine, its run properties, what its decisions amount to, and as an object |
| `Leap.dfy`, `LeapProofs.dfy`, `LeapHistory.dfy` | the leap manager, its invariants, and when leap seconds are recorded and announced |
| `LeapText.dfy`, `LeapRoundTrip.dfy` | the leap file's format, and which files survive it |
| `Vpd.dfy`, `Synce.dfy` | vital product data; SyncE sections and the lookup of a port |

State that the source updates in place is a class whose methods state the whole new state through a specification
function; the run properties are lemmas about that function. Steps of goroutines are transitions of a state machine,
and a run is any sequence of them.

## What the proofs found

- **The table of grandmaster states.** The decision departs from the table above `updateGMState` in exactly two cases
  (`FollowsTableIff`). Without a DPLL a lost GNSS source should give FREERUN with class 248; the code keeps the last
  record, so a locked grandmaster stays at class 6 (`LockedWithoutSource`). A DPLL that freeruns out of spec should
  give class 140; the code gives 248 unless the frequency is traceable too, which no producer reports (`ExpiredHoldoverClass`).
- **Reset of ts2phc.** It deletes the rows of a config but keeps its record, so a stored LOCKED survives with no
  locked process behind it. Every stored LOCKED of a run has a witness if and only if no such reset ever meets a
  LOCKED record (`WitnessedIff`).
- **A getter that times out.** The error of a try that expired is shadowed in `RunPMCExpGetGMSettings`
  (pkg/pmc/pmc.go:85-102), so after six of them it returns a record of zeros and no error (`GetSettings`); a stored
  negative UTC offset is one way there (`StoredReply`). A leap second announced on zeros stores class 0, a class write
  on zeros clears the leap flags (`ZeroAnswers`). `StepFrames`, `FixedAfterFirstWrite` and `Converges` say exactly what
  such answers break.
- **A leap second may be settled without being announced.** The first tick in the window that finds the PMC's offset
  already equal to the event's sets the sent flag, so the event is never announced, whatever the PMC answers later.
  An event is announced exactly once if the first tick that settles it finds a difference, and otherwise not at all
  (`AnnouncedExactlyOnce`, `EqualAnswerSilences`).
- **Exit of the DPLL monitor.** It means to cancel the holdover, but the goroutine it wakes decides once more and
  starts a second holdover exactly when the source is still lost and the hardware can hold over
  (`ExitRestartsIff`, `ExitRestartsExample`).
- **Negative UTC offsets.** They are printed with a sign that the expression for the PMC answer does not accept, so
  such a record cannot be read back (`PrintReadsBack`); `Update` itself would accept it (`UpdatesRebuild`).
- **Blocks of 65533 bytes.** Length plus header is computed in 16 bits and is zero there, so `ParseVpd` never ends.
  In any file it fails to end if and only if it comes to the start of such a block (`DivergesIff`, `LongBlockDiverges`).
- **SyncE ports.** The comment says that a device owns the ports after its own section; the code hands it all earlier
  ports too (`OwnPortsIff`). Looking a port up by first match still finds the intended device (`LookupFindsOwner`).

## Model

| member | source | states |
|---|---|---|
| `Stats.Data.UpdateState` | pkg/event/stats.go:44-62 | the loop's fold is HOLDOVER if any interface has it, else FREERUN, else LOCKED, else unknown, whatever the order of interfaces |
| `Stats.ExtendWorst` | pkg/event/stats.go:46-59 | what one more interface does to the process state, in every case |
| `Stats.Data.GetDataDetails` | pkg/event/stats.go:65-72 | returns the first detail of the interface, or none |
| `Stats.Data.AddEvent` | pkg/event/stats.go:74-111 | an event overwrites its interface's detail unless it is older, or is appended; subscribers are told of a new interface or a changed state; what the fields then are is said by LatestWins |
| `EventHandling.EventHandler.constructor` | pkg/event/event.go:200-226 | the handler starts empty and valid |
| `EventHandling.EventHandler.GetData` | pkg/event/event.go:993-1010 | finds the first record of the process or appends an empty one, also for an unknown config |
| `EventHandling.EventHandler.AddEvent` | pkg/event/event.go:1012-1021 | the whole new table, the spec flags that only DPLL events change, and whether subscribers are told |
| `EventHandling.EventHandler.IsSourceLost` | pkg/event/event.go:490-498 | the flag of the first GNSS interface, false without one |
| `EventHandling.EventHandler.GetGnssInterface` | pkg/event/event.go:500-515 | the interface found by the nested search, or the reserved name |
| `EventHandling.EventHandler.ProcessStates` | pkg/event/event.go:338-350 | the scan ends with the last row of each process, and with the stated defaults |
| `EventHandling.EventHandler.WithDpll` | pkg/event/event.go:379-415 | the arms under a locked or absent DPLL are the specified decision |
| `EventHandling.EventHandler.DecideRecord` | pkg/event/event.go:358-453 | the switch over the DPLL state, on the three scanned states, is the specified decision |
| `EventHandling.EventHandler.UpdateGmState` | pkg/event/event.go:313-470 | the stored and returned record for every table, or nothing stored while no GNSS interface is known |
| `EventHandling.ShiftLeft` | pkg/event/event.go:649-651 | deleting from a slice moves the rest up in the shared backing array and leaves its last cell |
| `EventHandling.DeleteWhileRanging` | pkg/event/event.go:645-653 | the loop that deletes from the slice it ranges over removes exactly the named process and keeps the others in order |
| `EventHandling.KeptRows` | pkg/event/event.go:645-653 | under one row per process, removing a process is removing the one index where it is found |
| `EventHandling.EventHandler.ResetData` | pkg/event/event.go:637-659 | the whole handler after a reset, ts2phc or other, with the table invariant kept |
| `EventHandling.EventHandler.MakeRequest` | pkg/event/event.go:729-753 | the request of the turn, pinned for every handler and event by IssuedIff |
| `EventHandling.EventHandler.ProcessEvent` | pkg/event/event.go:634-771 | one turn of the loop equals the specified turn in every field, keeps the table invariant, spawns exactly the specified request and tells subscribers exactly when specified |
| `GrandmasterProofs.ReachableTable` | pkg/event/event.go:993-1021 | in every reachable state each config has one row per process, each row one detail per interface and the folded state |
| `GrandmasterProofs.WithoutMembers` | pkg/event/event.go:645-653 | a reset keeps exactly the rows of the other processes |
| `GrandmasterProofs.GnssRowDecides` | pkg/event/event.go:490-515 | in a well-formed table the GNSS row alone decides interface and source-lost flag |
| `GrandmasterProofs.DecisionInputs` | pkg/event/event.go:338-358 | with the producers' alphabets the no-data arm and the default arm are unreachable |
| `GrandmasterProofs.UnknownDpllKeepsGmIff` | pkg/event/event.go:416-452 | the unreachable default arm keeps state and class paired exactly while GNSS is known, or ts2phc freeruns, or both stay on holdover; otherwise LOCKED gets class 7 and others the old class |
| `GrandmasterProofs.FollowsTableIff` | pkg/event/event.go:286-312 | the decision follows the documented row if and only if neither a GNSS source is lost without a DPLL (short of a record already at 248) nor a DPLL freeruns out of spec without traceable frequency |
| `GrandmasterProofs.SilentRows` | pkg/event/event.go:391-412 | what happens where the documented table has no row |
| `GrandmasterRuns.LockedWithoutSource` | pkg/event/event.go:404-411 | a run of three events after which the record is LOCKED with class 6 where the documented row says FREERUN with 248 |
| `GrandmasterRuns.ExpiredHoldoverClass` | pkg/event/event.go:359-369 | a run of two events after which a DPLL out of spec has class 248 where the documented row says 140 |
| `GrandmasterProofs.TurnKeepsHandler` | pkg/event/event.go:634-671 | every turn keeps the table, the alphabets and the pairing of state, class and accuracy, also in the announced record |
| `GrandmasterProofs.ReachableRecords` | pkg/event/event.go:313-470 | every reachable record: LOCKED iff class 6, HOLDOVER iff 7, FREERUN iff 0, 140 or 248; LOCKED has 100 ns, FREERUN unknown accuracy |
| `GrandmasterProofs.LockedHasWitness` | pkg/event/event.go:358-411 | unless a ts2phc reset met a LOCKED record, a stored LOCKED has a witness since the config's last reset at which GNSS and ts2phc were LOCKED; the DPLL was LOCKED or absent ever since |
| `GrandmasterProofs.WitnessedIff` | pkg/event/event.go:637-659 | at every moment of a run a stored LOCKED has a witness, if and only if no ts2phc reset of the config ever meets a LOCKED record |
| `GrandmasterProofs.ResetLeavesNoWitness` | pkg/event/event.go:639-643 | a ts2phc reset that meets a LOCKED record leaves it LOCKED with no witness at all |
| `GrandmasterProofs.TraceAt` | pkg/event/event.go:634-671 | the trace the witness speaks of is the table after each prefix of the run |
| `GrandmasterProofs.Ts2phcResetLeavesLocked` | pkg/event/event.go:639-643 | after a ts2phc reset any LOCKED record outlives a DPLL that reports FREERUN |
| `GrandmasterHistory.ProcessStateIs` | pkg/event/stats.go:44-62 | over every produced run a process is HOLDOVER if the latest event of some interface says so, else FREERUN, else LOCKED, else absent |
| `GrandmasterHistory.FirstInterface` | pkg/event/event.go:500-515 | over every run the GNSS interface is that of the first GNSS event since the config's last reset of GNSS or ts2phc |
| `GrandmasterHistory.SourceLostIs` | pkg/event/event.go:490-498 | over every run the source-lost flag is the sourceLost field of the latest event on that interface |
| `GrandmasterHistory.FlagsAre` | pkg/event/event.go:517-523 | over every run the spec flags are those of the last DPLL event since the last reset of a process other than ts2phc |
| `GrandmasterHistory.RecordFollowsEvents` | pkg/event/event.go:286-312 | over every produced run the record stored and announced obeys the documented row, evaluated on fields of events, with its accuracy, if and only if neither exception applies; rows the table lacks are told too |
| `GrandmasterHistory.IssuedIff` | pkg/event/event.go:729-771 | for every handler and event: a request exactly when an event is handled, the class is not 0, and the class differs or a DPLL event measured another accuracy at class 7 or 140; every field of it |
| `GrandmasterHistory.ResetAsksAgain` | pkg/event/event.go:639-643 | after a ts2phc reset the next event that announces a class asks for it, whatever it is |
| `GrandmasterHistory.MirrorKept` | pkg/event/event.go:639-643 | no other turn touches the mirrored class and accuracy |
| `GrandmasterHistory.SilentWithoutInterface` | pkg/event/event.go:319-322 | while no GNSS interface is known nothing is asked for and no verdict changes |
| `GrandmasterHistory.StartsEmpty` | pkg/event/event.go:200-226 | the state every run starts from |
| `LastWriter.FindRecorded` | pkg/event/stats.go:74-105 | after a write each interface reads as before, except the written one |
| `LastWriter.LookupTurn` | pkg/event/event.go:1012-1021 | after a turn each (config, process, interface) entry reads as before, except the event's own |
| `LastWriter.LookupReset` | pkg/event/event.go:637-653 | a reset clears the entries of its process, a ts2phc reset those of the config, and no other |
| `LastWriter.NotifiedIff` | pkg/event/stats.go:74-110 | subscribers are told of an event exactly when it makes its entry appear or change state |
| `LastWriter.LatestWins` | pkg/event/stats.go:74-105 | over every run each entry holds, field by field, the event with the greatest timestamp since its last reset, the latest arrival on ties; without one it is absent |
| `LastWriter.DeliveryOrderIrrelevant` | pkg/event/stats.go:44-105 | with distinct timestamps every delivery order gives every process the same aggregated state |
| `ClassRequests.UpdateClockClass` | pkg/event/event.go:801-863 | the record sent, if any, and the class and accuracy reported; what they say is pinned by CommitSays and UpdateTakes |
| `ClassRequests.CommitsIff` | pkg/event/event.go:816-862 | a class record takes effect exactly for a GM request of class 6, 7, 140 or 248 that differs from the class read |
| `ClassRequests.CommitSays` | pkg/event/event.go:811-862 | it then has the requested class, the UTC offset in force, its validity, timescale, traceability, time source, variance, and accuracy 0x21 at 6, 0xFE at 248, else the request's own |
| `ClassRequests.UpdateTakes` | pkg/event/event.go:1023-1032 | after a successful update the record has the class asked for and the handler mirrors the record |
| `ClassRequests.OffsetIsLastWritten` | pkg/event/event.go:814-862 | over any run the stored UTC offset is that of the last class record, or zero after a leap second announced on zeros |
| `ClassRequests.LastWriteStands` | pkg/event/event.go:809-862 | a class record stands as sent, leap flags apart, until the next one or an announcement on zeros |
| `ClassRequests.NoRequestLost` | pkg/event/event.go:757-771 | over any run every issued request is still on its way, was worked on, or was dropped by a full slot |
| `ClassRequests.CommitFixes` | pkg/event/event.go:809-862 | after any step a record is fixed by its class if and only if a class record took effect, or it was fixed before and no leap second was announced on zeros |
| `ClassRequests.FixedAfterFirstWrite` | pkg/event/event.go:809-862 | from any state: once a class record took effect, every record stored later in a run is fixed by its class, if and only if no leap second is announced on zeros |
| `ClassRequests.StepFrames` | pkg/event/event.go:809-862 | a class write keeps the leap flags, an announcement keeps all else, exactly unless made on zeros over something that was not zero; other steps touch no record |
| `ClassRequests.ZeroAnswers` | pkg/pmc/pmc.go:85-102 | at a getter that timed out: an announcement stores class 0, a class write clears both leap flags |
| `ClassRequests.RestingRequests` | pkg/event/event.go:749-771 | at rest an event issues a request exactly while the mirror differs, and only for the resting class |
| `ClassRequests.StaleConserved` | pkg/event/event.go:757-771 | no step at rest adds a stale request: retired plus left is what there was |
| `ClassRequests.StaleIsFinite` | pkg/event/event.go:757-771 | over any run at rest only the stale requests of its start are ever retired |
| `ClassRequests.OneUpdateSettles` | pkg/event/event.go:1023-1032 | without stale requests one successful update makes class, mirror and record agree |
| `ClassRequests.SettledStaysIff` | pkg/event/event.go:801-863 | a settled config stays so at a step if and only if no answer of zeros disturbs it; no request is issued |
| `ClassRequests.SettledForeverIff` | pkg/event/event.go:749-771 | over a run at rest they agree at every moment if and only if undisturbed, and then no request is issued |
| `ClassRequests.Converges` | pkg/event/event.go:605-617 | through dropped sends, failed getters and setters and answers of zeros: stale requests gone and one update succeeded gives agreement, lasting and silent if and only if no later answer of zeros disturbs it |
| `Settings.Load` | pkg/pmc/pmc.go:96-98 | the loop over the captured values is the fold of Update |
| `Settings.HexRoundTrip` | pkg/protocol/type.go:135-149 | hex fields of either width survive printing and conversion |
| `Settings.UpdateField` | pkg/protocol/type.go:86-111 | updating a key with the value printed for it copies exactly that field, and says when the matcher accepts the value |
| `Settings.UpdatesRebuild` | pkg/protocol/type.go:35-60 | feeding the printed values back in key order rebuilds every record from any start, for all 32-bit UTC offsets |
| `Settings.CaptureLines` | pkg/protocol/type.go:62-84 | the printed lines match exactly when each value has its key's shape, and then yield the values |
| `Settings.PrintReadsBack` | pkg/protocol/type.go:35-111 | printing, matching and updating gives the record back if and only if its UTC offset is not negative |
| `Settings.CapturePrinted` | pkg/protocol/type.go:62-84 | the expression for the answer matches a printed record if and only if its UTC offset is not negative |
| `SettingsText.PrintedQuality` | pkg/protocol/type.go:41-44 | the first eight tokens of the text: class, accuracy, variance and UTC offset under their own names |
| `SettingsText.PrintedLeap` | pkg/protocol/type.go:45-46 | leap61 and leap59, each under its own name |
| `SettingsText.PrintedValidity` | pkg/protocol/type.go:47-48 | offset validity and timescale under their own names |
| `SettingsText.PrintedTraceability` | pkg/protocol/type.go:49-51 | both traceabilities and the time source under their own names |
| `SettingsText.ConvertersClamp` | pkg/protocol/type.go:127-157 | a number too large or too small for its field becomes the nearest value of the field |
| `Pmc.GetSettings` | pkg/pmc/pmc.go:62-103 | six tries: the first decisive one gives the reply; without one it is zeros, an error only if the last command was not sent |
| `Pmc.ReplyIff` | pkg/pmc/pmc.go:85-102 | try by try, when the reply is an error and what it carries otherwise |
| `Pmc.StoredReply` | pkg/pmc/pmc.go:85-102 | reading a stored record gives it back, or zeros without an error when its UTC offset is negative |
| `HoldoverTimer.DriftExceeds` | pkg/dpll/dpll.go:838-848 | the rounded drift is out of spec exactly from T(2S+1)/(2M) seconds on |
| `HoldoverTimer.OutOfSpecFrom` | pkg/dpll/dpll.go:874-881 | in whole seconds: exactly from the ceiling of that bound on |
| `HoldoverTimer.TimerRounds` | pkg/dpll/dpll.go:294-313 | the in-spec timer is S*T/M rounded half up, bounded on both sides |
| `HoldoverTimer.TimerTrails` | pkg/dpll/dpll.go:310-313 | the timer never passes the first out-of-spec second and trails it by less than T/(2M)+3/2 |
| `HoldoverTimer.Ts2phcEndsFirst` | pkg/daemon/daemon.go:528-536 | the ts2phc holdover option never outlasts the DPLL holdover and ends less than T/(2M)+3/2 seconds before it |
| `HoldoverTimer.CalculateTimer` | pkg/dpll/dpll.go:940-962 | each setting is the profile's own where present and parseable, else the default, in any visiting order; the timer follows, zero for a zero timeout and platform-dependent for a zero maximum offset |
| `HoldoverTimer.SettingIs` | pkg/dpll/dpll.go:945-957 | a setting counts exactly when it is there, consists of digits and fits 64 bits; a printed number is its value |
| `HoldoverTimer.ProfileTimer` | pkg/dpll/dpll.go:940-962 | the settings by name with their defaults, and the timer S*T/M rounded half up |
| `DpllObject.DpllConfig.constructor` | pkg/dpll/dpll.go:289-308 | the device starts valid, in FREERUN with a faulty offset, out of spec and off holdover |
| `DpllObject.DpllConfig.StateDecision` | pkg/dpll/dpll.go:628-711 | the decision, with the woken goroutine's own at either moment, is the specified one, keeps the device valid and, with GNSS, leaves state and every other field as the conditions on status, source, offset and thresholds say |
| `DpllObject.DpllConfig.HoldoverClosed` | pkg/dpll/dpll.go:828-832 | the goroutine's turn after a close, with its deferred decision |
| `DpllObject.DpllConfig.HoldoverTick` | pkg/dpll/dpll.go:837-850 | the goroutine's turn at a tick keeps the device valid and ends the holdover exactly from the first out-of-spec second on |
| `DpllObject.DpllConfig.HoldoverTimeout` | pkg/dpll/dpll.go:851-857 | the goroutine's turn at the timeout keeps the device valid and leaves no holdover, whatever is decided next |
| `DpllObject.DpllConfig.OnNotify` | pkg/dpll/dpll.go:194-217 | a notification decides only when monitoring and only on a change, and keeps the device valid |
| `DpllObject.DpllConfig.Read` | pkg/dpll/dpll.go:774-777 | new readings are stored, then decided on; the device stays valid |
| `DpllObject.DpllConfig.StartMonitoring` | pkg/dpll/dpll.go:611-625 | monitoring starts, over sysfs presumed in spec; the device stays valid |
| `DpllProofs.RunSafe` | pkg/dpll/dpll.go:628-711 | over every GNSS-sourced run at most one holdover is live, exactly when onHoldover; onHoldover implies inSpec; HOLDOVER implies onHoldover; no send blocks for ever |
| `DpllDecisions.WorseComesFirst` | pkg/dpll/dpll.go:802-823 | of two statuses the one that comes first in UNKNOWN, INVALID, FREERUN, HOLDOVER, LOCKED, LOCKED_HO_ACQ decides |
| `DpllDecisions.WorseOfUnknown` | pkg/dpll/dpll.go:817-823 | a status outside that list counts as INVALID, and the frequency's wins a tie |
| `DpllDecisions.DecisionAmountsTo` | pkg/dpll/dpll.go:628-711 | whatever the schedule, a decision and the decisions it wakes amount to one flat table over worse status, source, offset against both thresholds, inSpec and last state, for every field |
| `DpllDecisions.InputIs` | pkg/dpll/dpll.go:194-217 | which steps decide, and the device each decides on, field by field |
| `DpllDecisions.GnssStateIff` | pkg/dpll/dpll.go:628-711 | after any run and any deciding step a GNSS-sourced DPLL is LOCKED, FREERUN or HOLDOVER if and only if those conditions of that moment hold |
| `DpllDecisions.WithoutDecision` | pkg/dpll/dpll.go:838-850 | a step that decides nothing changes nothing but the monitoring flags or, at a tick, the offset |
| `DpllDecisions.PpsAmountsTo` | pkg/dpll/dpll.go:656-706 | the whole of a PPS-sourced device after a decision |
| `DpllDecisions.CreatedIs` | pkg/dpll/dpll.go:289-308 | the device every run starts from |
| `DpllProofs.QuietDecision` | pkg/dpll/dpll.go:628-711 | with no goroutine parked a decision wakes nobody, and starts a holdover exactly when capable, in spec and without source |
| `DpllProofs.HoldoverEnds` | pkg/dpll/dpll.go:825-864 | a close or an expiry ends the holdover, every other step keeps it; the decision that follows never restarts it |
| `DpllProofs.EndsBy` | pkg/dpll/dpll.go:835-857 | in any safe state the timeout ends the holdover, and a tick does so exactly from the first out-of-spec second on |
| `DpllProofs.HoldoverLasts` | pkg/dpll/dpll.go:835-857 | undisturbed, with one tick a second and the timeout at T, a holdover lasts exactly min(T, ceil(T(2S+1)/(2M))) seconds and stays over, whichever comes first at T |
| `DpllProofs.InSpecEarned` | pkg/dpll/dpll.go:641-697 | inSpec always goes back to a step that showed it, never cleared in between |
| `DpllProofs.HoldoverEarned` | pkg/dpll/dpll.go:679-686 | every entry into holdover is preceded by such a step: worst status LOCKED, source present and offset in range, or a sysfs start |
| `DpllProofs.ExpiryNeedsNewProof` | pkg/dpll/dpll.go:844-857 | after an expiry that does not itself show the DPLL in spec, no holdover starts over any run until a step shows it again |
| `DpllProofs.ExitRestartsIff` | pkg/dpll/dpll.go:767-773 | the close at exit restarts the holdover exactly when the source is lost and the hardware can hold over; when it leaves a stale HOLDOVER |
| `DpllProofs.ExitRestartsExample` | pkg/dpll/dpll.go:767-773 | a run from creation that locks and loses GNSS, whose exit starts a second holdover |
| `DpllProofs.PpsMemoryless` | pkg/dpll/dpll.go:581-587 | over every run a PPS-sourced DPLL has no lost source between decisions and never enters holdover |
| `DpllProofs.PpsLockedIff` | pkg/dpll/dpll.go:656-706 | after a reading it is LOCKED iff the worse status is LOCKED or LOCKED_HO_ACQ and the current offset is in range; only a status outside -1..4 leaves the last state |
| `Leap.LeapManager.constructor` | pkg/leap/leap-file.go:236-238 | the manager starts with the cache at the last event |
| `Leap.LeapManager.GetUtcOffset` | pkg/leap/leap-file.go:103-113 | the two-entry lookup, or none where the process gives up |
| `Leap.LeapManager.UpdateLeapFile` | pkg/leap/leap-file.go:290-308 | appends an event unless its total is zero, and refreshes update time and cache |
| `Leap.LeapManager.ProcessLeapIndication` | pkg/leap/leap-file.go:375-420 | when an indication is taken and at which leap time |
| `Leap.LeapManager.HandleLeapIndication` | pkg/leap/leap-file.go:356-366 | the whole manager after an indication |
| `Leap.LeapManager.Tick` | pkg/leap/leap-file.go:254-284 | the whole manager after a tick and the record sent, for every outcome of reading and setting; when and what is sent is pinned by SentIff and FlagAfter |
| `LeapProofs.CachedOffsetIsInForce` | pkg/leap/leap-file.go:103-125 | after any run with a monotone clock the cached offset is that of the last listed passed event, and the table has only grown at its end |
| `LeapProofs.GrowsOnlyWhenPassed` | pkg/leap/leap-file.go:396-416 | the table grows by one event at most and never while its last event is pending |
| `LeapProofs.RepeatIsNoOp` | pkg/leap/leap-file.go:393-416 | an indication with a non-zero total changes nothing once it was taken |
| `LeapProofs.ZeroTotal` | pkg/leap/leap-file.go:294-307 | a zero total is never recorded |
| `LeapProofs.AnnouncedOnce` | pkg/leap/leap-file.go:254-284 | over every run with a monotone clock each event gets at most one successful announcement |
| `LeapProofs.FlagClearedBeforeAppend` | pkg/leap/leap-file.go:282-284 | with ticks at most 60 s apart every append finds the sent flag cleared |
| `LeapProofs.CatchUpNeverInWindow` | pkg/leap/leap-file.go:408-411 | an event recorded without a scheduled change is never in the window |
| `LeapProofs.AnnouncementFrame` | pkg/leap/leap-file.go:260-273 | an announcement touches only the leap flags and sets the one that the sign asks for |
| `LeapHistory.RecordedIff` | pkg/leap/leap-file.go:375-416 | the table grows exactly for a valid GPS indication unlike the last, passed event; the new event has current plus 19 plus change, at its week and day since 6 January 1980 |
| `LeapHistory.CatchUpSecond` | pkg/leap/leap-file.go:408-411 | without a scheduled change it is dated a minute ago, to the second below |
| `LeapHistory.SentIff` | pkg/leap/leap-file.go:254-280 | a tick sends exactly strictly between 12 hours and 60 seconds before the last event, with the flag clear and an answer whose offset differs; the answer with the one leap flag the sign asks for |
| `LeapHistory.FlagAfter` | pkg/leap/leap-file.go:254-284 | the sent flag after a tick, as an if-and-only-if |
| `LeapHistory.AnnouncedIff` | pkg/leap/leap-file.go:254-284 | from the moment it is listed an event is announced if and only if the first tick that settles it finds a differing offset |
| `LeapHistory.AnnouncedExactlyOnce` | pkg/leap/leap-file.go:254-284 | over every monotone run with ticks at most 60 s apart an appended event is announced exactly once in that case, else never |
| `LeapHistory.EqualAnswerSilences` | pkg/leap/leap-file.go:270-273 | a tick that finds the offset equal silences the event for good |
| `LeapText.ParseLeapFile` | pkg/leap/leap-file.go:127-159 | the loop is the fold over lines, with both errors and the index panics |
| `LeapText.RawParses` | pkg/leap/leap-file.go:166-188 | parsing the text around sound and dated strings returns them |
| `LeapRoundTrip.RenderParsesIff` | pkg/leap/leap-file.go:166-188 | parsing a rendered file returns the same file if and only if its numbers are valid, comments and hash single-spaced, both dates there and no character escaped |
| `LeapRoundTrip.RestartKeepsFileIff` | pkg/leap/leap-file.go:190-238 | every file that was ever parsed survives being written and read if and only if dated and free of escaped characters |
| `LeapRoundTrip.EscapedTimeFails` | pkg/leap/leap-file.go:127-159 | a file whose event time carries a plus sign is not readable at all once written |
| `LeapRoundTrip.LinesWritten` | pkg/leap/leap-file.go:167-173 | which line of the text holds what, with the separators of an event |
| `LeapRoundTrip.TaggedLines` | pkg/leap/leap-file.go:169-173 | how the dates and the hash are written |
| `LeapRoundTrip.EscapedCharacters` | pkg/leap/leap-file.go:175-183 | which characters the template escapes, and how |
| `LeapRoundTrip.LineKinds` | pkg/leap/leap-file.go:132-139 | what a line is for, by how it starts |
| `LeapRoundTrip.DataLine` | pkg/leap/leap-file.go:139-156 | what a line of data does, with both errors and their order |
| `LeapText.FoldKeepsSound` | pkg/leap/leap-file.go:127-159 | whatever the text, a parsed file has valid numbers and single-spaced comments and hash |
| `Text.DigitsRoundTrip` | pkg/protocol/type.go:127-157 | reading printed digits in base ten or sixteen gives the number back |
| `Vpd.ParseVpdBlock` | addons/intel/phaseAdjust.go:273-287 | the loop over fields is the specified scan, with every index out of range |
| `Vpd.AdoptAll` | addons/intel/phaseAdjust.go:252-263 | ranging over the block's map in any order adopts the same fields |
| `Vpd.ParseVpd` | addons/intel/phaseAdjust.go:235-271 | the loop over blocks is the specified scan, including panics and the loop that never ends |
| `Vpd.ScanEncodedFields` | addons/intel/phaseAdjust.go:273-287 | scanning encoded fields collects them, wherever they lie in the file |
| `Vpd.ScanUndoesImage` | addons/intel/phaseAdjust.go:235-271 | every well-formed image is scanned in bounds to its last identifier and its last SN, PN, V1 and V2 |
| `Vpd.CardRead` | addons/intel/phaseAdjust.go:225-263 | tags by their bytes and keywords by their letters: any card with one field of each is read as it is |
| `Vpd.LongBlockDiverges` | addons/intel/phaseAdjust.go:245 | a block of 65533 bytes, anywhere after well-formed ones, is never left |
| `Vpd.DivergesIff` | addons/intel/phaseAdjust.go:239-268 | in any file at all the scan fails to end if and only if it takes a block of 65533 bytes |
| `Synce.ExtractSynceRelations` | pkg/daemon/config.go:198-256 | the loop yields the named device sections in order, each with all ports before the next device section, its own external source and its own options or their defaults |
| `Synce.SyncEDeviceByInterface` | pkg/daemon/daemon.go:1404-1415 | the nested search returns the first device that lists the interface |
| `Synce.LookupFindsOwner` | pkg/daemon/daemon.go:1404-1415 | for every section list the lookup finds the named device section in force where the port first appears, else the next named one |
| `Synce.LookupIsInForce` | pkg/daemon/config.go:198-256 | with named devices and a device section before the port, the section in force where the port first appears is found |
| `Synce.UnlistedNotFound` | pkg/daemon/daemon.go:1404-1415 | an interface without a port section is never found |
| `Synce.SectionKinds` | pkg/daemon/config.go:209-246 | [<n>] is the device n, [{n}] the external source n, [n] the port n unless it is [global] |
| `Synce.ExternalIs` | pkg/daemon/config.go:241-242 | the external source is the last one listed before the next device section |
| `Synce.DeviceListed` | pkg/daemon/config.go:210-256 | a device is listed exactly when it is that of a named device section |
| `Synce.OwnPortsIff` | pkg/daemon/config.go:190-197 | a device lists exactly its own section's ports if and only if no port comes before its section |

## Assumptions

- Each goroutine turn is one step. The DPLL code takes no lock around `stateDecision`; the model lets the woken
  holdover goroutine decide either at once or after the decision that woke it, and nothing in between.
- Each get-modify-set of the PMC record is one step, for the worker as for the leap manager. A getter fails, gives the
  stored record, or gives zeros without an error; a setter that reports success took effect.
- Convergence speaks of one grandmaster config at rest: the handler mirrors a single class for all configs.
- GNSS sends only s0 and s2, DPLL and ts2phc only s0, s1 and s2, where a statement says "producers' alphabets".
- Slopes are exact rationals and `math.Round` rounds halves away from zero.

## Left out

- Sockets, netlink, sysfs, processes, Kubernetes, metrics, logging and the debug tree: only success, failure and dropping remain.
- The events a DPLL decision sends: the DPLL and the handler are modelled apart, joined by the producers' alphabets.
- `ClockAccuracyFromOffset`: a library function; its result is part of the event.
- Pointer identity of per-process records: the handler loads and stores them by value.
- Two GNSS-sourced DPLLs sharing the global map of depending states: one GNSS-sourced DPLL is modelled.
- Which netlink messages concern a DPLL (`nlUpdateState`): a reading brings any subset of the three values.
- Rows of the DPLL table for an out-of-range offset with the source present: the code keeps the old state there.
- Frequency-traceable holdover: the flag is constantly false in the DPLL code.
- HoldoverTimer.CalculateTimer: does not say which integer a zero maximum offset gives, because the conversion of an infinite or undefined quotient is left to the platform.
- A zero timeout in the DPLL itself: its slope is infinite and its holdover expires at once.
- HoldoverTimer.Ts2phcEndsFirst: does not model floating-point error or settings of 2^63 and above.
- Convergence of the accuracy while at class 7 or 140: the record is written only when the class changes.
- ClassRequests.Converges: does not model fairness of the scheduler; that the stale requests are gone is a premise, that they cannot multiply is proved.
- Settings.PrintReadsBack: does not model other text around the record in a PMC answer.
- Leap.LeapManager.UpdateLeapFile: does not model the comment and the new hash, because dates and SHA-1 are library functions; times are integers there.
- Leap.LeapManager.HandleLeapIndication: does not model writing the config map and its retry, which is I/O.
- Stats.Data.AddEvent: does not model the log text and metrics of a detail, which nothing decides on.
- Slices with spare capacity: a VPD file's slice is as long as its array.
- Synce.ExtractSynceRelations: does not model the text of the two options, given as the integers made of it, nor the clock id and last levels, which it leaves empty.
- Clock ids and rendering of SyncE configurations: dependent on map order.
- The round trip of ptp4l configurations: the rendered text is not accepted by its own parser.
- Log-line expressions, ubxtool polling, YAML and JSON decoding, plugins: library-bound or easy.
