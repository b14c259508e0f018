# kiss-tnc-bridge, modelled in Dafny

The daemon shares hardware KISS TNCs between apps. This project models its
hardest parts and proves what they keep. Check it with
`dafny verify --verification-time-limit 0 dfyconfig.toml`.

| part | files | what is proved |
|---|---|---|
| the bridge's event loop | `BridgeState`, `BridgeShape`, `BridgeLinks`, `BridgeUplink`, `BridgeDownlink`, `BridgeHistory`, `BridgeRuns`, `BridgeRun`, `Policy` | invariants of every reachable state: order and conservation of uplink frames, dead links, sessions, demand for the link, holds |
| reload | `Config`, `Validate`, `Switch`, `Reconcile`, `Planner`, `Kicks`, `PlanShape`, `Reload`, `ReloadFolds`, `ReloadEffects`, `ReloadResults`, `ReloadLink`, `ReloadSettled`, `ReloadTnc`, `ReloadExamples`, `Daemon`, `Sorting` | what validation reports, what a plan is, what applying it does at every point, and that the plan predicts it |
| KISS framing | `Kiss` | stuffing and reassembly, both round trips |
| timestamps | `Calendar` | printer and parser invert each other; the calendar is the Gregorian one |
| config files and edits | `Resolve`, `Build`, `StaticConfig`, `SwitchBuild`, `Rename`, `RenameAdapter`, `RenameTnc`, `RenamePlans`, `RenameEdits`, `Edit`, `FreeIds` | dynamic config can't touch static config; a rename keeps meaning, from the edit to the plan |
| activity events | `Coalesce` | nothing lost, at most one event per 100 ms |

The bridge is a state machine: `BridgeState.State` holds the fields of the
source's `Run` and, around them, the writers' channels, the queue of events
from the links, and counts of what happened. One step is one arm of the select
loop or one move of the surrounding tasks; a run is any enabled sequence of
steps. `BridgeRun.Run` is the imperative loop, proved to do those steps.
Likewise `Planner`, `Daemon`, `Edit`, `Build`, `Coalesce` and `Kiss` hold the
imperative code, proved against the functions the lemmas are about.

Where code and documentation differ, the model follows the code:

- A hold (`port.connect`, `port.disconnect`) is documented to win over the
  connect policy; `apply_settings` doesn't look at it. `HoldStep` says exactly
  when a step breaks a hold, `HeldDownYetConnected` is a run where one does.
- A plan is documented to list every session it disconnects and every link in
  use it drops (docs/control-api.md:99-104). It looks at a port's new role
  only. So sessions on a port that restarts as a TNC port go unlisted:
  `SessionsEnded` says exactly which, `UnlistedHappens` is a case. Three drops
  of a link go unlisted: of a TNC port that stays as an app port beside a new
  TNC port (`UnlistedLinkHappens`); by settings that turn `always` into
  `on_demand` with no session and no idle timeout (`PolicyDropHappens`); and,
  without a timeout, along with the last session. `LinksDropped` says exactly
  when. With a timeout, the link goes when that runs out, after the reload.
- A reload is to bring the running bridges in line with the config. A TNC port
  that is restarted and given new connect or idle settings at once keeps the
  old settings: `SettingsReach` says exactly when, `UntoldHappens` is a case.
  One that is restarted while its new connector can't be made goes on with the
  old one: `ConnectorReaches`, `RefusedRestartHappens`. And an enabled bridge
  that couldn't start is not tried again until it is disabled and enabled, or
  the daemon restarts: `WhichRun`, `NotRetried`.
- The decoder doesn't unstuff the command byte; `DecodeEncoded` and
  `EncodeDecoded` say exactly when the round trips hold.
- The timestamp parser looks at neither the colons nor the fields' ranges:
  `ParserRight` says exactly for which texts its answer is what they say,
  `LooseStamp` is one it takes and shouldn't.
- Edits go by id. In a store where two objects share an id, an edit reaches the
  first. `NoneLeftIff` says exactly when a rename then leaves references behind,
  `HiddenReference` is a case. A switch can find that the bridge it is to turn
  on or off is hidden behind one that is set aside: `SwitchSources` says exactly
  what it then does, `NotReached` is such a store.
- A frame on an idle link is written to start a connection; no reachable state
  does that (`IdleUplinkOnlyWhenHeldDown`).

## Model

| member | source | states |
|---|---|---|
| BridgeRuns.StepInv | src/bridge/mod.rs:580-618 | every arm of the loop, and every move of the tasks around it, keeps the whole invariant |
| BridgeHistory.RunRecords | src/bridge/mod.rs:799-817 | the frames taken in a run are exactly the app frames among its inputs that come from an open session and pass the policy in force at that moment, in order; frames received, cleared with a link given up and withheld from slow sessions are those of the inputs too |
| BridgeHistory.RunReads | src/bridge/mod.rs:1109-1131 | the TNC frames ever queued are exactly those the links' readers read, in order |
| BridgeRuns.UplinkInOrder | src/bridge/mod.rs:908-962 | for every run from the start, the frames handed to all writers are an in-order selection of those policy-passing app frames, unchanged, each at most once |
| BridgeRuns.UplinkConserved | src/bridge/mod.rs:908-962 | for every run, the app frames among the inputs are frames up, uplink drops counted, frames pending and frames that waited for a link given up; none is lost to a full writer queue |
| BridgeRuns.SessionGetsReadFrames | src/bridge/mod.rs:964-990 | for every run, what a session was sent is an in-order selection of what the links' readers read |
| BridgeRuns.OnlyHarmlessFrames | src/bridge/mod.rs:799-817 | nothing pending or handed over is empty, a KISS return or an unknown command |
| BridgeRuns.IdleUplinkOnlyWhenHeldDown | src/bridge/mod.rs:908-954 | with a session open, an idle link is a held-down one |
| BridgeRuns.CurrentGenerationIsLive | src/bridge/mod.rs:964-1014 | of all events ever queued, those of the current generation are exactly those of the link connected now |
| BridgeRuns.BroadcastExact | src/bridge/mod.rs:964-990 | a session gets a frame exactly when it was read from the connected link and the session isn't full |
| BridgeRuns.StaleFrameIgnored | src/bridge/mod.rs:964-990 | a frame from any link but the connected one changes nothing, also when a newer link is connected |
| BridgeRuns.StaleCloseIgnored | src/bridge/mod.rs:991-1012 | a close from a dead link changes nothing |
| BridgeRuns.EachLinkEndsOnce | src/bridge/mod.rs:991-1012 | losses handled are links lost; an ended link keeps its end and is told nothing more |
| BridgeRuns.ExitKissLast | src/bridge/mod.rs:707-738 | exit-KISS is the last message of its link, so at most one, and only after a deliberate close |
| BridgeRuns.SessionGetsTncFrames | src/bridge/mod.rs:964-990 | what a session got is an in-order selection of TNC frames since it opened |
| BridgeRuns.DemandMet | src/bridge/mod.rs:747-797 | with no hold: an idle link is unwanted, and an unwanted link that isn't idle has its idle timer running |
| BridgeRuns.HoldStep | src/bridge/mod.rs:883-906 | a hold survives a step if and only if the step isn't a settings change that overrides it |
| BridgeRuns.HoldRun | src/bridge/mod.rs:833-854 | in a run without such changes the link follows the hold throughout |
| BridgeRuns.HeldDownYetConnected | src/bridge/mod.rs:883-906 | a reachable state: held down, connected, nothing to take it down |
| BridgeRuns.StateIsWhatItShows | src/bridge/mod.rs:624-738 | writer exactly while connected; pending at most 32 and only while connecting or backing off; published state matches the link; backoff delay is 1 s doubling to 30 s |
| BridgeShape.DelayAsPromised | src/bridge/mod.rs:680-697 | the capped shift gives the documented delay for every attempt |
| BridgeUplink.ConnectSendsFreshSuffix | src/bridge/mod.rs:1042-1051 | on connect the writer is told exactly the suffix of pending frames no older than 5 s, in order |
| BridgeUplink.ConnectCountsTheRest | src/bridge/mod.rs:1042-1051 | every pending frame not sent on connect is counted as dropped |
| Policy.FilterExact | src/bridge/policy.rs:43-61 | the filter passes exactly the harmless frames, less parameter commands where those are dropped |
| BridgeRun.OfferEach | src/bridge/mod.rs:964-990 | the loop over sessions is the broadcast, with every full session counted |
| BridgeRun.Run.StartConnecting | src/bridge/mod.rs:640-655 | refines `StartConnect` |
| BridgeRun.Run.StartWaiting | src/bridge/mod.rs:657-678 | refines `StartWait` |
| BridgeRun.Run.StartBackingOff | src/bridge/mod.rs:680-697 | refines `StartBackoff` |
| BridgeRun.Run.Close | src/bridge/mod.rs:699-738 | refines `Disconnect` |
| BridgeRun.Run.SendUp | src/bridge/mod.rs:908-954 | refines `Uplink` |
| BridgeRun.Run.Queue | src/bridge/mod.rs:956-962 | refines `QueuePending` |
| BridgeRun.Run.HandleApp | src/bridge/mod.rs:754-819 | refines `OnApp` |
| BridgeRun.Run.ApplyNewSettings | src/bridge/mod.rs:883-906 | refines `ApplySettings` |
| BridgeRun.Run.HandleCmd | src/bridge/mod.rs:821-881 | refines `OnCmd` |
| BridgeRun.Run.HandleTnc | src/bridge/mod.rs:964-1014 | refines `OnTnc` |
| BridgeRun.Run.HandleLinkUp | src/bridge/mod.rs:1016-1051 | refines `OnLinkUp`, flushing entry by entry |
| BridgeRun.Run.HandleLinkFailed | src/bridge/mod.rs:1052-1086 | refines `OnLinkFailed` |
| BridgeRun.Run.Ready | src/bridge/mod.rs:586-622 | the guards the loop evaluates are the state machine's |
| BridgeRun.Run.Loop | src/bridge/mod.rs:580-618 | whatever is offered, what the guards let through is a run, and the loop ends where it leads |
| BridgeRun.EveryRunTaken | src/bridge/mod.rs:580-618 | any run is one the loop takes when it is offered |
| Validate.Note | src/config/validate.rs:55-76 | a seen-map reports a repeat, and the latest place it repeats, exactly when there is one |
| Validate.Validate | src/config/validate.rs:44-356 | the errors are exactly the problems there are; none if and only if the config is valid |
| Validate.ValidIff | src/config/validate.rs:134-344 | errors split: each object well defined, each enabled bridge complete, no two enabled bridges clashing |
| Switch.Conflicting | src/supervisor.rs:2026-2039 | exactly the enabled bridges that don't validate beside the target |
| Switch.SwitchTo | src/supervisor.rs:638-650 | disables those, then enables the target, on the effective config |
| SwitchBuild.SetEnabled | src/supervisor.rs:2001-2022 | a static bridge through its override, a dynamic one in its definition, or an error if there is none |
| SwitchBuild.Edited | src/supervisor.rs:2001-2022 | rebuilding after that edit turns just that bridge on or off in the effective config, or changes nothing if a set-aside bridge of its id comes first in the store |
| SwitchBuild.SwitchSources | src/supervisor.rs:638-650 | the edits of a switch rebuild to the switched config, but for bridges no edit reaches; to an error if and only if the target is reached and is incomplete or has something in its way that isn't reached |
| SwitchBuild.SwitchedAll | src/supervisor.rs:638-650 | if edits reach every bridge, that is the switched config |
| SwitchBuild.NotReached | src/control/edit.rs:350-356 | a store where an edit by id doesn't reach the bridge of that id that runs |
| Switch.PairCheck | src/supervisor.rs:2026-2039 | a pair validates if and only if both are complete and they don't clash |
| Switch.SwitchSound | src/supervisor.rs:2026-2039 | from a valid config the result is valid if and only if the target is complete |
| Switch.SwitchMinimal | src/supervisor.rs:2026-2039 | turning any disabled bridge back on makes the result invalid |
| Switch.SwitchLeavesTheRest | src/supervisor.rs:2026-2039 | bridges that aren't in the way stay as they were |
| Planner.MakePlan | src/reconcile.rs:207-246 | the lists the source builds are the plan of `Reconcile.PlanFor` |
| Planner.CompareBridge | src/reconcile.rs:284-330 | the bridge's entry is `Reconcile.PlanBridge` |
| Planner.ComparePort | src/reconcile.rs:332-589 | the port's entry is `Reconcile.PlanPort`, for all six kinds |
| Planner.KickNotAllowed | src/reconcile.rs:515-524 | exactly the sessions whose readable peer isn't allowed, in order |
| Planner.KickNewest | src/reconcile.rs:592-599 | of the sessions beyond the limit, the youngest |
| PlanShape.PlanExact | src/reconcile.rs:207-246 | one entry per bridge enabled before or after, and which one |
| PlanShape.PortPlansExact | src/reconcile.rs:284-330 | one entry per port before or after, and which one |
| Kicks.KickExact | src/reconcile.rs:509-574 | a port that stays up drops a session if and only if the new allow list shuts it out or enough older sessions fill the new limit; no session is listed twice |
| Kicks.LimitMet | src/reconcile.rs:525-552 | after a limit changes, at most that many sessions are left |
| Kicks.OldestStay | src/reconcile.rs:592-599 | with the allow list unchanged, those left are exactly the oldest |
| Kicks.SurvivorsAllowed | src/reconcile.rs:515-524 | after the allow list changes, whoever is left and can be checked is allowed |
| ReloadEffects.NoConflict | src/config/validate.rs:308-322 | what runs within a valid config has no two bridges on conflicting sockets |
| ReloadFolds.AppliedToBridge | src/supervisor.rs:419-515 | the three passes act on each bridge by its own entry alone |
| ReloadResults.ReloadConsistent | src/supervisor.rs:419-515 | applying a plan leaves every running port one the new config has, every listener where it says, and every session on a running port |
| ReloadResults.SessionsEnded | src/reconcile.rs:258-330 | the sessions a reload ends are exactly those its plan lists and those on a port restarting as a TNC port, which it doesn't list |
| ReloadResults.LinksDropped | src/supervisor.rs:453-473 | a link in use is dropped if and only if the plan lists the bridge's stop; or a running TNC port with a connector restarts, listed as a TNC port and never as an app port; or the settings sent close it; or it goes with the last session |
| ReloadResults.NonDisruptive | src/reconcile.rs:156-195 | a plan without disruptions ends exactly the sessions, and drops exactly the links in use, that it can't see |
| ReloadResults.DisruptionsExact | src/reconcile.rs:165-186 | the disruptions are exactly the entries' stops in use, disconnects and link restarts |
| ReloadExamples.UnlistedHappens | src/reconcile.rs:558-574 | two valid configs where a plan with no disruption ends a session |
| ReloadExamples.UnlistedLinkHappens | src/reconcile.rs:558-574 | two valid configs where a plan with no disruption drops a link in use |
| ReloadExamples.PolicyDropHappens | src/bridge/mod.rs:883-906 | two valid configs, all roles kept, where a plan with no disruption drops a link |
| ReloadExamples.UntoldHappens | src/supervisor.rs:453-460 | a reload, all roles kept, after which a bridge runs with its old settings |
| ReloadExamples.RefusedRestartHappens | src/supervisor.rs:464-473 | a reload, all roles kept, after which a bridge that can't start runs with its old connector |
| ReloadExamples.NotRetried | src/supervisor.rs:419-515 | an enabled bridge that can start, left out by a reload of the same config and run by a fresh start |
| ReloadLink.SettingsAgree | src/bridge/mod.rs:883-906 | what the reload model does with new settings is what the bridge's loop does: settings and link agree afterwards |
| ReloadLink.LeavingAgrees | src/bridge/mod.rs:780-797 | the loop keeps the link when a session leaves exactly when the reload model does |
| ReloadLink.ConnectorAgrees | src/bridge/mod.rs:821-881 | a new connector takes the loop's link down |
| ReloadSettled.WhichRun | src/supervisor.rs:419-515 | a bridge runs after a reload if and only if the new config enables it and it ran before or is newly enabled and can start |
| ReloadSettled.ReloadSettles | src/supervisor.rs:419-515 | when ports keep their roles: exactly those bridges run, each with its TNC port and the app ports a fresh start would give it |
| ReloadTnc.SettingsReach | src/supervisor.rs:453-460 | when ports keep their roles, a bridge that stays has the new TNC settings if and only if its TNC port connects out and isn't restarted and given new settings at once |
| ReloadTnc.ConnectorReaches | src/supervisor.rs:464-473 | when ports keep their roles, a bridge that stays dials its new TNC port if and only if the port isn't restarted or its connector can be made; if not it keeps the old connector, where a fresh start wouldn't run it |
| ReloadTnc.StartIsCurrent | src/supervisor.rs:1543-1588 | a bridge that starts has its TNC settings |
| ReloadTnc.StartDials | src/supervisor.rs:1543-1588 | a bridge that starts dials its TNC port |
| ReloadSettled.PlanIsExact | src/reconcile.rs:156-162 | when ports keep their roles, the sessions ended are exactly those listed |
| ReloadSettled.NothingDisrupted | src/reconcile.rs:156-195 | when ports keep their roles, a plan without disruptions ends no session, and drops a link if and only if the bridge has no session and the settings sent close it |
| Daemon.Daemon.constructor | src/supervisor.rs:224-250 | a daemon before its first reload: the start config without its objects, nothing running |
| Daemon.Daemon.StopPort | src/supervisor.rs:1708-1740 | the port and its sessions go, nothing else |
| Daemon.Daemon.StopBridge | src/supervisor.rs:1590-1612 | the bridge goes; on the way only parts of what ran still run |
| Daemon.Daemon.StartPort | src/supervisor.rs:1616-1706 | only server kinds start, with the config's settings |
| Daemon.Daemon.StartBridge | src/supervisor.rs:1543-1588 | nothing if no connector can be made, as for a server kind; otherwise the TNC port, then the app ports, every state on the way within the new config |
| Daemon.Daemon.TellSettings | src/supervisor.rs:453-460 | the bridge is told its TNC settings exactly when the app parameters changed or a running TNC port is updated, and they close its link under the guard of `apply_settings` |
| Daemon.Daemon.UpdatePort | src/supervisor.rs:1743-1797 | live settings and announcing change, the listener doesn't |
| Daemon.Daemon.Apply | src/supervisor.rs:419-515 | does what `Reload.Applied` says; at every point what runs is within the old config or within the new one, so no two bridges ever hold conflicting sockets |
| Daemon.Daemon.Reload | src/supervisor.rs:352-382 | happens if and only if the config is valid and the plan isn't refused as disruptive; otherwise nothing changes |
| Daemon.Daemon.Meanwhile | src/supervisor.rs:384-401 | sessions, the link and its hold may change between reloads; the daemon stays consistent |
| Daemon.Serve | src/supervisor.rs:224-257 | startup is a reload from the empty config; through any reloads and changes after it, the daemon stays consistent and at no point do two bridges hold conflicting sockets |
| Kiss.Encode | src/kiss/frame.rs:69-79 | the bytes between FENDs are the stuffed command and data |
| Kiss.Decode | src/kiss/frame.rs:36-66 | the loop is the recursive unstuffing, errors included |
| Kiss.DecodeEncoded | src/kiss/frame.rs:36-92 | decode undoes encode if and only if the command is neither FEND nor FESC |
| Kiss.EncodeDecoded | src/kiss/frame.rs:36-92 | encode undoes decode if and only if the raw frame has no FEND and its command isn't FESC |
| Kiss.ScanExact | src/kiss/buffer.rs:50-80 | frames are exactly the non-empty runs between consecutive FENDs, and the rest stays |
| Kiss.ScanResumes | src/kiss/buffer.rs:50-80 | what the buffer keeps is enough to go on as if it had kept everything |
| Kiss.ReassemblyBuffer.Push | src/kiss/buffer.rs:37-48 | never over the limit; an overflow leaves the buffer as new |
| Kiss.ReassemblyBuffer.FindFrames | src/kiss/buffer.rs:50-80 | the index loop finds the frames of the scan and where the partial one starts |
| Kiss.ReassemblyBuffer.DrainFrames | src/kiss/buffer.rs:50-80 | takes out the frames of the scan and keeps its tail |
| Kiss.ReassemblyBuffer.Feed | src/kiss/buffer.rs:37-80 | chunk after chunk, going on after overflows: the frames of each stretch between them, in order; no overflow if and only if every chunk fits |
| Kiss.FeedWhole | src/kiss/buffer.rs:37-80 | if every chunk fits, the frames depend on the bytes, not on how they were cut |
| Kiss.OverflowStartsAfresh | src/kiss/buffer.rs:37-48 | after an overflow, what follows comes out as from a new buffer |
| Kiss.Transport | src/kiss/buffer.rs:37-80 | encode a list, cut anywhere, push and drain, decode: one result per frame, and they are the frames if and only if no command is FEND or FESC |
| Calendar.DaysRoundTrip | src/control/protocol.rs:1046-1054 | every day number prints as a valid Gregorian date that reads back as that day |
| Calendar.CivilRoundTrip | src/ctl/render.rs:420-428 | every valid date's number prints as that date |
| Calendar.CalendarAdvances | src/control/protocol.rs:1046-1054 | consecutive day numbers are consecutive calendar days |
| Calendar.Epoch | src/control/protocol.rs:1046-1054 | day zero is 1 January 1970 |
| Calendar.FourDigitYears | src/control/protocol.rs:1046-1061 | the years with four digits end with day 2932896 |
| Calendar.PadFits | src/control/protocol.rs:1055-1060 | a padded number reads back, in exactly its width if it fits |
| Calendar.TimestampRoundTrip | src/ctl/render.rs:412-430 | parsing a printed time gives it back if and only if it is from 1970 through 9999 |
| Calendar.StampRoundTrip | src/control/protocol.rs:1038-1061 | printing what a well-formed stamp says gives the stamp |
| Calendar.ParserRight | src/ctl/render.rs:412-430 | for every text the parser takes, its answer prints back as the text if and only if the text is a well-formed stamp: separators, digits, ranges, a real date from 1970 on |
| Calendar.StampsTaken | src/ctl/render.rs:412-430 | every well-formed stamp is taken |
| Calendar.LooseStamp | src/ctl/render.rs:412-430 | a text without colons, of month 13, that is taken |
| Coalesce.NothingLost | src/control/events.rs:108-158 | in every run, per key, bytes out and bytes pending are bytes received |
| Coalesce.RateLimited | src/control/events.rs:128-141 | any two events of a key are 100 ms apart, also across forgetting the slot |
| Coalesce.NothingOverdue | src/control/events.rs:142-154 | after a tick, bytes wait only behind an event of their key less than 100 ms old |
| Coalesce.Coalescer.OnBytes | src/control/events.rs:129-141 | one arrival is `Receive` |
| Coalesce.Coalescer.OnTick | src/control/events.rs:142-154 | the pass over the slots in any order, then the pruning, is `Ticked` |
| Coalesce.Loop | src/control/events.rs:126-157 | the loop goes through a run |
| Resolve.ResolveFiles | src/config/resolve.rs:723-1097 | the config of the files, or an error if anything in them is wrong |
| Build.SetAsideCollisions | src/config/mod.rs:228-285 | dynamic objects a static one shadows are left out, with one warning each |
| Build.ApplyOverrides | src/config/mod.rs:289-298 | exactly the static bridges with an override get it |
| Build.BuildConfig | src/config/mod.rs:186-213 | the merged config if it validates |
| StaticConfig.StaticValue | src/config/resolve.rs:762-797 | a static adapter reference that resolves, resolves the same without the dynamic adapters |
| StaticConfig.StaticKind | src/config/resolve.rs:979-998 | likewise a static port with its adapter or TNC |
| StaticConfig.ResolvedStatic | src/config/resolve.rs:723-1097 | the static part of any successful resolution is the resolution of the static files alone |
| StaticConfig.StaticUnaffected | src/config/mod.rs:186-213 | a build that succeeds with a dynamic file has the static adapters, TNCs and bridges, enabled flags included, of the build without it, which succeeds too |
| Rename.RenamedUnmentioned | src/control/edit.rs:479-510 | after a rename nothing defines or refers to the old id |
| RenameAdapter.AdapterRename | src/control/edit.rs:479-510 | an accepted adapter rename builds if and only if the id is one an adapter can have; the config differs in that id only |
| RenameTnc.TncRename | src/control/edit.rs:479-510 | an accepted TNC rename builds if and only if the id is well formed; the config differs only in that id, its uses, and the name of a TNC without one |
| RenamePlans.AdapterRenameIsNoop | src/reconcile.rs:151-153 | an adapter rename plans as nothing to do |
| RenamePlans.TncRenameRestartsNothing | src/reconcile.rs:370-413 | a TNC rename restarts nothing and disrupts nothing |
| Edit.References | src/control/edit.rs:555-606 | exactly the references to the object |
| Edit.SetPortReference | src/control/edit.rs:608-619 | that port of the first bridge of that id follows, or gets a key the loader refuses if it is of another type; no other port changes |
| Edit.SetSectionReference | src/control/edit.rs:620-636 | that section of the first TNC of that id follows, no other TNC changes |
| Edit.NoneLeftIff | src/control/edit.rs:502-509 | a rename leaves no reference to the old id if and only if no referring object was hidden behind another of its id |
| Edit.OwnIdsHideNothing | src/control/edit.rs:608-636 | if every object has an id of its own, none that refers to another is hidden |
| Edit.HiddenReference | src/control/edit.rs:502-509 | a store where a rename, however its references follow, leaves one behind |
| Edit.DynamicStore.UpdateTnc | src/control/edit.rs:479-510 | when each outcome happens; done, the references their ids find follow, and if none is hidden the store is the renamed one |
| Edit.DynamicStore.UpdateAdapter | src/control/edit.rs:479-510 | when each outcome happens; done, the references their ids find follow, and if none is hidden the store is the renamed one |
| RenameEdits.RenameTncDef | src/control/edit.rs:479-510 | from config to config: when a TNC is given another id; if no reference is hidden, the rebuild has it under that id and nothing else changed, or is refused for the id, and the plan restarts and disrupts nothing |
| RenameEdits.RenameAdapterDef | src/control/edit.rs:479-510 | likewise for an adapter, and the plan is a no-op |
| Edit.DynamicStore.DeleteTnc | src/control/edit.rs:513-535 | refused exactly while something refers to it; done, nothing refers to the id, and nothing mentions it unless it was defined twice |
| Edit.DynamicStore.DeleteAdapter | src/control/edit.rs:513-535 | refused exactly while something refers to it; done, nothing refers to the id, and nothing mentions it unless it was defined twice |
| FreeIds.FirstFree | src/control/edit.rs:169-176 | the search ends, at the lowest free number |
| FreeIds.NamePorts | src/control/edit.rs:203-228 | each port has an id; those given are kept; a new one is the port's type and the lowest index free when its turn comes, and nobody else's |

## Left out

- Wall-clock time, scheduling and liveness: time is a number that doesn't go
  back, timers are steps that may fire, and only safety is proved.
- In the bridge: log text, hub events, `Snapshot`, and counters' wrap-around at
  64 bits. A handler is one step; a writer may fail between steps and between
  the frames flushed on connect.
- The bytes on the wire to the TNC, and the writer's teardown pauses.
- Sessions opening or closing while a plan is being applied: the plan and its
  application see the same sessions.
- Public names and DNS-SD while applying a plan.
- ReloadResults.LinksDropped: only what the reload itself does; a link left
  without a session and with an idle timeout goes when that runs out, which is
  the bridge's own doing (`BridgeRuns.DemandMet`).
- ReloadSettled.ReloadSettles: doesn't say which adapter a running ble-server
  is on, because a value that means the same adapter on this host isn't a
  change and the old one stays; a ble-server may also be waiting for an adapter.
- In validation: warnings, host checks and message text.
- In `resolve`: error text and the list of errors (one error or more is an
  error), and the readers of listen addresses, networks, durations, models and
  `host:port`, whose results are part of the file.
- The library's reading of a session's peer as an address is a parameter of the
  plan, and so is what each adapter value means on the host.
- TOML, the store's files and revisions, the control socket, `ktbctl`, BlueZ,
  pairing, scanning, Avahi and `src/ax25.rs`.
- `create_object`, `create_bridge` and the port edits of `src/control/edit.rs`
  beyond free ids: they would add easy members only.
