# Verified model of the device manager

This project models the daemon that hands USB and PCI devices of a host to
virtual machines run by Crosvm, and proves what its operations promise. The
command `dafny verify dfyconfig.toml` (Dafny 4.11) checks the whole project.

## How the model is built

**World.** `World` holds everything an operation reads or changes: the
persistent records (selected VMs, permanently disconnected devices, recorded
Crosvm ports) and their saved copy, the tables kept in memory, the VMs behind
their control sockets, the sysfs attributes of the host, a log of every Crosvm
command and every notification, and one of what the gate asks of the kernel. A
VM is absent, a stale socket, or a running VM with a port table and a set of
PCI functions; the generation of a socket tells a restarted VM from the one a
record was made for.

**Specifications.** `UsbSpec`, `PciSpec`, `HostPolicy`, `Gate` and
`ReconcileSpec` say, as functions, what each operation does to the world.
Everything that may go wrong (a command that fails, a lost attach, a failed
write or scan, a failed save at each of the places the code saves) is an
argument, so a statement for all arguments is a statement about every failure.

**The program.** `DeviceManager.Manager`, `StateFile.State` and
`Machine.Surroundings` are the imperative form: classes whose methods update
fields step by step, with the loops, early returns and guards of the code. Each
method is proved to end in exactly the world its specification function names,
on every path. The self-contained algorithms
(escaping, the descriptor walk, the storage closure, rule matching, the
argument renderer, the Crosvm retry loops) are methods proved against
definitions that do not mention their loops.

**Two views of a VM.** `Crosvm.GuestSocket` is a VM at the level of command
replies, where the attach loop retries and works out the new port. The outcomes
that loop is proved to have (`Crosvm.AttachOutcome`: refused, taken at a known
port, lost) are the outcomes an attach can have in the world.

**Runs.** `UsbRuns.Event` lists what may happen: attach, detach, suspend,
resume, observe, whole reconciliations (gate, observation, both resumes,
sweep), PCI attach, detach, suspend and resume, VMs starting, stopping, claiming
interfaces or leaving a stale socket behind, and a restart of the daemon. The
properties of runs are proved for every sequence of events.

**Told from outside.** Beside the properties of runs, every operation has laws
that do not mention its specification's branches: exactly when it succeeds and
with which error it fails (`Detaching`, `Attaching`, `PciOutcomes`), what it has written by then (`Recording`), which
commands it may issue to whom and what it announces (`Routing`, `Scopes`,
`PciCommands`, `Observations`), what it leaves to everybody else, and when a
pass over all devices fails or puts work off (`Scopes`, `PciRuns`, `Passes`).

| file | subject |
|---|---|
| `World`, `UsbSpec`, `PciSpec`, `ReconcileSpec`, `Marks` | the state and what each operation does to it |
| `StateFile`, `Machine`, `DeviceManager` | the same operations as imperative code |
| `Frames`, `Soundness`, `UsbRuns` | recorded bindings tell the truth over every run |
| `Exclusive`, `ExclusiveRuns`, `Tracking`, `Restart` | a device is held at most once, what that takes, and when an attach breaks it |
| `StartAnew` | what a restarted daemon does anew |
| `Authorization`, `HostPolicy` | USB authorization on every exit and in the final sweep |
| `Detaching`, `Attaching`, `Recording`, `Routing`, `Scopes` | what a USB detach and attach come to, which VM a device goes to, and whom passes over devices touch |
| `PciCommands`, `PciOutcomes`, `PciRuns`, `PciSticky` | the same for PCI functions, and permanent PCI detach |
| `Observations`, `Passes` | what an observation announces and takes back; what a reconciliation may do and what it reports; its gate, told from outside |
| `Sticky`, `Selection`, `SuspendResume` | permanent USB detach, remembered selection, suspend and resume |
| `Reconcile`, `PciReconcile`, `Quiescence`, `SecondPass` | what one reconciliation settles, and that the next does nothing |
| `UsbNames`, `Gate`, `GateProbes`, `GateRuns` | interface names, the host-driver gate, what it gives back to the host, and its passes within the daemon's own runs |
| `PciRules`, `VmmArgs` | rule priority and the VM's PCI arguments |
| `Storage`, `Descriptors`, `Crosvm`, `Escape` | self-contained algorithms |

## Assumptions

- An operation is one step. Attach, detach, suspend and resume hold the
  `operation` mutex; observation, the gate and the deauthorization sweep do
  not, and interleavings of those with an operation are not covered.
- Ports of a VM change only through commands of the manager or when the VM
  restarts; a new socket has a generation no record mentions.
- Where devices have to be told apart, the statement says so: no current
  record of the same vid:pid under another name (`NoTwin`; `Identifiable` asks
  it only where a search may be made), scanned devices with their own names,
  nodes and vid:pid pairs (`DistinctDevices`), distinct persistent ids
  (`DistinctScan`, `Sticky.Differs`). For a reconciliation the records meant
  are those its observation leaves.
- Where a VM has to list a device under the numbers the host reads, the
  statement says so (`HonestAttach`).
- A failed save is covered by the permanent-detach and authorization results.
  Binding soundness, exclusivity and the remembered selection take saves to
  succeed (`DetachSaves`, `AttachSaves`): after a failed save the records in
  memory and on disk differ by design.
- Rule matching, the scans, the kernel's choice of driver and directory
  listings are arguments.

## Where the code does not meet a property

- *A successful attach can leave a device in two places.* The table of holders
  is in memory only, records are kept by sysfs name, and an attach looks at
  nothing else before it decides whether to move a device. As long as every
  live port is on record, `Restart.AttachExclusiveIff` gives the exact
  condition: every current record with the device's vid:pid, under whatever
  name, is one the attach gives up. Unless a move goes by the memory of a holder
  without a current record, or the name's record is of another device, this is
  (`Restart.NoneLeftIffMovable`): no other name has a current record of the
  vid:pid, and the device can be taken from where it is.
  - *After a restart* no holder is remembered, and with `persistency` off there
    are no records either. `Restart.RestartExclusiveIff` is the condition for
    both settings, in terms of the world before the restart;
    `Restart.RestartCanDuplicate` a world in which it fails, for either.
  - *After a replug under another name* the old name still has its record until
    an observation clears it: `Restart.ReplugCanDuplicate` is an attach in a
    running daemon before that. If the replug happened while the daemon was
    down, no observation ever clears the record
    (`Restart.UnobservedStaysOnRecord`), and the next plain reconciliation
    attaches the device a second time (`Restart.ReconcileCanDuplicate`).
- *A cut field is not always recognisable.* The marker `...` is distinct from
  every uncut rendering only if the part kept is longer than 253 characters;
  an escape that does not fit can leave less. `Escape.CutIsAmbiguousIff` is
  the exact condition, `Escape.CutCanBeAmbiguous` a concrete field: 253 plain
  characters and one U+001B read like the same characters and three dots.
- *The PCI order number is not the global position of the allow entry.* The
  counter stops early at each earlier rule that saw a match but did not win.
  `PciRules.OrderVersusPosition` says exactly when the two agree,
  `PciRules.PriorityCanInvert` a returned list with a lower-priority rule ahead.
- *Reopening the gate can probe a device a VM holds.* What is spared is what the
  manager remembers, looked up in a scan: `Gate.OpenProbesIff` is the exact
  condition, and `Gate.OpenCanProbeHeldDevice` shows a held device probed when
  the scan fails, and when a restarted daemon stops before it has reconciled.
- *The sweep can close a device a VM holds.* It spares what the manager
  remembers (`HostPolicy.SweepWithdrawsIff`), and an attach whose stale port
  cannot be given back leaves the device with the VM, its guard committed and
  nothing remembered: `Authorization.SweepCanWithdrawHeld`.
- *A temporary detach lifts a permanent mark*, so it is one of the steps
  `Sticky.PermanentDetachSticks` leaves out (`Sticky.TemporaryDetachLifts`);
  a restart with `persistency` off is another, since it forgets every mark.
- *A marked PCI function can come back with a group mate.* No resume or
  reconciliation adds a marked function on its own account
  (`PciSticky.MarkedIsNotAdded` is the exact condition), but an unmarked mate
  whose rule has `iommuAddAll` brings the whole group along:
  `PciSticky.GroupMateCanAddMarked`. The mark itself stays
  (`PciSticky.PermanentPciDetachSticks`).
- *Interface lists of two devices can overlap*, for a root hub `usbN` and a
  device named `N-0` and in no other case (`UsbNames.InterfacesDisjointIff`).

## Model

| member | source | states |
|---|---|---|
| `Soundness.InvMeans` | src/manager.rs:656-713 | the invariant in the manager's own terms: every recorded binding whose generation is current names a live port of its VM showing the recorded vid and pid, and no two share a port |
| `Soundness.ReleasedIsUnclaimed` | src/manager.rs:765-789 | the port a detach takes back, by record or by the fallback search, is recorded for no other device |
| `Soundness.DetachIsSound` | src/manager.rs:735-816 | a detach keeps every binding true whatever fails short of a save, and drops the device's own binding exactly when it succeeds |
| `Soundness.AttachIsSound` | src/manager.rs:548-721 | an attach keeps every binding true on all its exits: refused, lost or failed commands, moves that fail half way, stale ports that cannot be given back |
| `UsbRuns.NextIsSound` | src/manager.rs:536-1205 | each kind of step keeps the binding invariant, reconciliations, VM restarts, stale sockets, devices replugged under other names and daemon restarts included |
| `UsbRuns.ReconcileIsSound` | src/manager.rs:1108-1205 | so does a whole reconciliation, whichever of its scans, commands and writes fail short of a save; distinct records are asked of the world its observation leaves |
| `UsbRuns.BindingsStaySound` | src/manager.rs:656-713 | over every fair run the binding invariant holds at the end |
| `UsbRuns.StartIsSound` | src/state.rs:40-66 | a world without records satisfies the invariant |
| `UsbRuns.ReplaceGuest` | src/manager.rs:1309-1317 | a VM that starts under a fresh generation, stops, or leaves its socket behind falsifies no binding |
| `Exclusive.OwnsMeansExclusive` | src/manager.rs:597-720 | live ports and current bindings correspond one to one, so no vid:pid is shown at two places |
| `Exclusive.ExclusiveIffDistinct` | src/manager.rs:597-720 | where every live port is on record, no vid:pid is shown at two places if and only if no two current records have the same one |
| `Exclusive.ReleaseIsExact` | src/manager.rs:757-790 | where no other name has a current record of the device, a release takes back exactly its recorded port, and otherwise touches nothing |
| `Exclusive.AttachToIsExclusive` | src/manager.rs:597-720 | an attach keeps the correspondence on every exit, when no other name has a current record of the device and the device can be taken from where it is |
| `ExclusiveRuns.OperationIsExclusive` | src/manager.rs:536-1205 | every step keeps the correspondence, if each attach in it is safe when its turn comes and each detach goes by a right memory; VM lifecycles and daemon restarts that keep the records included |
| `ExclusiveRuns.ReconcileIsExclusive` | src/manager.rs:1108-1205 | a whole reconciliation keeps the correspondence |
| `ExclusiveRuns.OwnershipStays` | src/manager.rs:597-720 | the correspondence over whole runs of such steps |
| `ExclusiveRuns.HeldAtMostOnce` | src/manager.rs:597-720 | from a start without records and ports, no such run shows a device in two VMs or at two ports |
| `Tracking.SteadyIsOrderly` | src/manager.rs:597-601 | while the daemon keeps running, its memory makes every move and every detach safe, and keeps up with each step |
| `Tracking.ObservationClears` | src/manager.rs:1127-1186 | after an observation that succeeds, where everything on record was seen plugged in and the table is walked in full, a device plugged in again under another name has lost its old record |
| `Tracking.SeenPassIsFair` | src/manager.rs:1108-1125 | so a reconciliation that sees a recorded device under a new name keeps the binding invariant |
| `Tracking.SteadilyHeldAtMostOnce` | src/manager.rs:597-720 | from an empty start, a daemon that keeps running shows no device at two places, with devices replugged under other names at will, if none is attached while another name has a current record of it |
| `Restart.RestartKeepsRecords` | src/state.rs:40-66 | a restart forgets the holders; with persistency it keeps the records and the correspondence, without it loses them unless no VM has a port |
| `Restart.AttachExclusiveIff` | src/manager.rs:597-601 | where every live port is on record, a successful attach leaves the device in one place if and only if it gives up every current record with the device's vid:pid, whatever the name |
| `Restart.ExclusiveIffGivenUp` | src/manager.rs:579-720 | in any world with true records, it does so if and only if every port that showed the device before is the one the attach gives up |
| `Restart.NoneLeftIffMovable` | src/manager.rs:597-601 | the condition in plain terms: no other name has a current record of the device, and it can be taken from where it is |
| `Restart.RestartExclusiveIff` | src/manager.rs:597-601 | after a restart a successful attach leaves the device in one place if and only if, before the restart: with persistency, no other name had a current record of it and its own was of the requested VM or out of date; without, no name had a current record of it |
| `StartAnew.AsksAgain` | src/manager.rs:98-123 | after a restart the user is asked again which VM a device is to go to |
| `StartAnew.AnnouncesUsbAgain` | src/manager.rs:98-123 | the first observation announces every device, and neither announces nor forgets one that left |
| `StartAnew.AnnouncesPciAgain` | src/manager.rs:98-123 | the same for functions |
| `StartAnew.AttachesPciAgain` | src/manager.rs:98-123 | a PCI attach that succeeds is announced even where the VM had the functions all along, and a PCI detach goes by the rule |
| `StartAnew.JudgesAgain` | src/manager.rs:98-123 | the gate goes by the rules alone until it has passed once |
| `Restart.UnobservedStaysOnRecord` | src/manager.rs:1144-1184 | an observation clears no record of a name it has not seen plugged in, whether it succeeds or not |
| `Restart.RestartCanDuplicate` | src/manager.rs:597-601 | a concrete world, for either setting of persistency, in which a restart and one successful attach leave a device in two VMs |
| `Restart.ReplugCanDuplicate` | src/manager.rs:597-601 | the same in a running daemon that remembers every holder, for a device plugged in again under another name |
| `Restart.ReconcileCanDuplicate` | src/manager.rs:1108-1125 | after a restart one plain reconciliation attaches a replugged device a second time |
| `Authorization.DetachAuthorization` | src/manager.rs:797-815 | a detach that reaches its records leaves the device unauthorized even when saving fails; one that fails before leaves the bit alone |
| `Authorization.CommittedMeansHeld` | src/manager.rs:691-693 | the guard is committed only when the target VM lists the device |
| `Authorization.AttachAuthorization` | src/manager.rs:66-86 | on every exit of an attach: if the guard was committed the bit is set and the VM holds the device; if not, it is as before, or withdrawn by a move that came first |
| `Authorization.CommitMeansTaken` | src/manager.rs:640-693 | the guard is committed only if Crosvm reported taking the device, or the binding on record still describes it |
| `Authorization.UntakenAttachRestores` | src/manager.rs:66-86 | an attach Crosvm never took, with no binding to reuse and no move first, leaves the bit at its entry value, even where the VM lists the same vid:pid already |
| `Authorization.ClaimReleasesHostDriversOnly` | src/manager.rs:613-639 | claiming takes off host drivers only; after a full claim every listed interface is free or under usbfs; a hub stops it |
| `Authorization.AttachClaims` | src/manager.rs:613-690 | whenever an attach command is issued, every interface of the device is free or under usbfs |
| `HostPolicy.SweepDenies` | src/manager.rs:209-231 | the sweep never grants, touches no hub, no host-allowed device and none whose node is remembered as attached, and on success leaves no other scanned device authorized |
| `HostPolicy.SweepWithdrawsIff` | src/manager.rs:209-231 | a sweep that succeeds closes a scanned device if and only if it is authorized, no hub, not host-allowed, and its node is not remembered; any other bit stays |
| `HostPolicy.SweepFailsIff` | src/manager.rs:226-227 | a sweep fails if and only if it meets such a device whose bit cannot be written |
| `HostPolicy.SweptFailsIff` | src/manager.rs:209-231 | the sweep runs only where it is enabled under an enforced policy, and then fails exactly when the bus cannot be scanned or a device cannot be closed |
| `HostPolicy.GrantsIff` | src/manager.rs:171-185 | a grant opens exactly the closed devices that are hubs or host-allowed and can be written |
| `Authorization.SweepCanWithdrawHeld` | src/manager.rs:689-696 | a concrete attach after which the guard is committed and the VM holds the device, and the sweep of the same pass withdraws its authorization |
| `HostPolicy.GrantOpens` | src/manager.rs:171-185 | host authorization goes to hubs and host-allowed devices only, and reaches all of them when no write fails |
| `HostPolicy.GrantAndSweepSettle` | src/manager.rs:171-231 | the sweep takes back no grant: after one round of both, another round changes nothing |
| `Reconcile.ReconcileDenies` | src/manager.rs:1121-1123 | a reconciliation that succeeds under the sweeping policy ends in default deny |
| `Detaching.ReleaseSettles` | src/manager.rs:757-790 | a release fails exactly when another device is at the recorded port, several ports show the device, the listing or the command fails, and then changes no port; otherwise the one port that is the device's is gone, one command is issued for it, and nothing else changes anywhere |
| `Detaching.DetachFails` | src/manager.rs:735-790 | where one of these errors applies, or the holder is not configured, the detach reports it and only the log may differ |
| `Detaching.DetachSettles` | src/manager.rs:735-816 | where none does, the holder loses the device's port and nothing else, the detach is announced, the records are gone, the mark is set if and only if the detach is permanent, and the device is closed to the host |
| `Detaching.DetachOfFreeDevice` | src/manager.rs:792-816 | a device nobody holds has its records dropped without a word to any VM |
| `Routing.WantedIsChosen` | src/manager.rs:555-579 | the VM requested, else the rule's target, else the remembered one, else the only one allowed is the VM of the attach; if the rule does not allow it or nobody configured it, the attach fails and changes nothing |
| `Routing.NobodyWanted` | src/manager.rs:563-572 | where there is no such VM the user is asked, once until an answer comes, and nothing else happens |
| `Routing.AttachIsAllowed` | src/manager.rs:573-578 | every attach command and announcement goes to a VM the rule names or allows, and whoever holds the device afterwards and did not before is such a VM |
| `Routing.ResumeIsAllowed` | src/manager.rs:1015-1056 | the same over a whole resume, and under a scope for that VM only |
| `Attaching.ClaimEnds` | src/manager.rs:616-639 | a claim succeeds exactly when every interface can be claimed, and finds a hub exactly when one comes before the first that cannot |
| `Attaching.UnreachedChangesNothing` | src/manager.rs:580-596 | an attach without a device node, without the VM's socket under an enforced policy, or without an answer to its preflight listing changes nothing |
| `Attaching.AttachEnds` | src/manager.rs:597-721 | where no other VM has to give the device up: exactly when an attach succeeds, when it asks the VM, when it announces itself and when it skips a hub; one that does not succeed records nothing unless a save failed |
| `Attaching.MoveEnds` | src/manager.rs:597-601 | where another VM has to, a detach that fails ends the attach, and otherwise it goes on likewise from what the detach left, without a record, announcing the new holder |
| `Attaching.AttachCommitsIff` | src/manager.rs:640-690 | the guard is committed if and only if the attach gets as far as the VM and the VM has the device, on record or at a port it just gave; whatever fails afterwards withdraws nothing |
| `Recording.AttachMakes` | src/manager.rs:697-720 | an attach that succeeds, or ends because one of its saves failed, has written the holder and the selection, the mark unless the first save failed, and the port unless the first or second did; each is on disk once a save after it succeeded |
| `Scopes.SuspendStaysInScope` | src/manager.rs:961-986 | a suspend issues and announces nothing but detaches of devices from the VMs remembered as holding them, in scope and not opted out; no other VM changes |
| `Scopes.SuspendOfOneVm` | src/manager.rs:977-981 | suspending one VM sends every command to its socket, names it in every notification, and leaves every other VM its ports |
| `Scopes.SuspendViews` | src/manager.rs:961-986 | a scanned device held by another VM or none, or opted out, keeps everything the manager knows of it; one that is due is held by nobody afterwards, unmarked, and still selected |
| `Scopes.SuspendReports` | src/manager.rs:981-986 | a suspend fails if and only if the detach of a device it was to take failed |
| `Scopes.OneTurn` | src/manager.rs:1019-1053 | one device of a resume: fails, is put off, is attached or sees nothing of it, each exactly when |
| `Scopes.ResumeFailsIff` | src/manager.rs:1044-1055 | a resume fails if and only if the attach of a due device was refused though the socket of its VM is there |
| `Scopes.ResumeDefersIff` | src/manager.rs:1047-1050 | a resume puts work off if and only if a due device is meant for a VM whose socket is not there, hubs found on the way aside |
| `Scopes.ResumeReachesAll` | src/manager.rs:1019-1055 | whatever failed before, a device that is due is attached in its turn, and the rest of the resume leaves what the manager then knows of it |
| `Scopes.SuspendReachesAll` | src/manager.rs:969-985 | the same for a suspend |
| `PciCommands.AttachPciActs` | src/manager.rs:834-900 | a PCI attach binds the function's group and adds what the rule hands over to the rule's VM, and does nothing else on any exit |
| `PciCommands.AttachPciRefuses` | src/manager.rs:834-865 | a VM other than the rule's, a group that cannot be read, or a shared one where the rule says so is refused without a trace |
| `PciCommands.DetachPciSettles` | src/manager.rs:914-959 | a PCI detach that succeeds, or only cannot save, sets the mark if and only if it is permanent, takes the function or its group off the records, and leaves none of it listed by the VM it was taken from, unless that is gone; everything else stays |
| `PciCommands.DetachPciActs` | src/manager.rs:914-959 | on every exit a PCI detach issues removes of what the rule hands over, to that VM only, and records of others stay |
| `PciOutcomes.AttachPciSucceedsIff` | src/manager.rs:834-900 | exactly when a PCI attach succeeds, and that it announces itself exactly if the VM did not list all of it or another holder was on record |
| `PciOutcomes.AttachPciRecords` | src/manager.rs:890-900 | what is handed over is on record for the VM and the function's mark is lifted, whether or not the save succeeds |
| `PciOutcomes.DetachPciSucceedsIff` | src/manager.rs:914-959 | exactly when a PCI detach succeeds; one that fails short of a save forgets nothing |
| `PciOutcomes.AddsAtMostOnce` | src/crosvm.rs:192-209 | no function is asked for twice, even where its group lists it twice |
| `PciOutcomes.RemovesAtMostOnce` | src/crosvm.rs:211-228 | nor is one taken back twice |
| `PciOutcomes.AddsAsTold` | src/crosvm.rs:192-209 | no add is asked for where the listing before it failed, and nothing is listed afterwards that no add brought about |
| `PciOutcomes.RemovesAsTold` | src/crosvm.rs:211-228 | the same for removals |
| `PciRuns.ResumePciReports` | src/manager.rs:1058-1089 | a PCI resume fails if and only if a due function whose VM is there could not be attached, and puts work off if and only if one was due for a VM that is not |
| `PciRuns.ResumePciStaysInScope` | src/manager.rs:1071-1078 | a PCI resume acts for unmarked functions in scope only, and lifts no mark |
| `PciRuns.SuspendPciStaysInScope` | src/manager.rs:988-1013 | a PCI suspend takes functions from the VM in scope only, spares those opted out, and forgets nobody else |
| `PciRuns.SuspendPciReports` | src/manager.rs:1008-1013 | a PCI suspend fails if and only if the detach of a function it was to take failed |
| `PciRuns.SuspendPciReleases` | src/manager.rs:1008-1013 | a PCI suspend that succeeds leaves no function it was to take on record, and none marks anything |
| `PciRuns.EveryTurnIsTaken` | src/manager.rs:988-1089 | whatever failed before, a function that is due is attached in its turn, and one that leaves its VM is detached |
| `PciSticky.NextKeepsMark` | src/manager.rs:1058-1089 | every step that does not attach the function at request or detach it temporarily keeps a PCI mark, on disk too |
| `PciSticky.PermanentPciDetachSticks` | src/manager.rs:954-957 | a permanently detached PCI function stays marked over every sequence of such steps, reconciliations, failed saves and restarts included |
| `PciSticky.MarkedIsNotAdded` | src/manager.rs:1063-1070 | a resume adds a marked function to a VM only if an unmarked function in scope brings its whole group along |
| `PciSticky.BroughtIsListed` | src/manager.rs:866-889 | and then it does: a mate that is attached leaves the marked function listed by the VM |
| `PciSticky.GroupMateCanAddMarked` | src/manager.rs:866-889 | two concrete functions of one group with which that happens |
| `Observations.ForgetFails` | src/manager.rs:1154-1172 | an unplugged device cannot be forgotten where its recorded VM is not configured, its port cannot be listed or not be given back; then only the log may differ |
| `Observations.ForgetSettles` | src/manager.rs:1154-1184 | otherwise its port is given back if the VM that runs now still shows the recorded device there, that is told once, and its records are gone once the save succeeds |
| `Observations.ForgetAllSettles` | src/manager.rs:1145-1184 | all that left are forgotten and none that stayed; ports on record for nobody who left stay |
| `Observations.ObserveUsbSettles` | src/manager.rs:1127-1186 | each device that was not there before is announced once, each that is not there any more once it is forgotten; the table is replaced unless something failed |
| `Observations.ObservePciSettles` | src/manager.rs:1188-1204 | the same for functions, which lose their holder when they are gone |
| `Observations.ObservationStages` | src/manager.rs:1127-1205 | an observation whose scan fails changes nothing, one that fails over USB does not get to PCI, and one that succeeds has seen to both |
| `Passes.ReconcileIsJustified` | src/manager.rs:1108-1125 | a reconciliation does nothing without a reason: arrivals and departures announced, recorded ports of what left given back, unmarked PCI functions attached to their rule's VM, USB devices to VMs their rules allow |
| `Passes.ReconcileReports` | src/manager.rs:1108-1125 | it fails exactly when a scan, the attach of something whose VM is there or the sweep does, and puts work off exactly when something waits for a VM that is not there; one failure hides no other device |
| `Sticky.PermanentDetach` | src/manager.rs:797-816 | a permanent detach that succeeds leaves the device marked, held by nobody and recorded nowhere, on disk too |
| `Sticky.NextKeepsDown` | src/manager.rs:1015-1056 | no step that does not select the device for an attach or a temporary detach changes that, under any of its names; reconciliations are such steps |
| `Sticky.ReconcileKeepsDown` | src/manager.rs:1108-1205 | no reconciliation brings the device back, whatever fails in it |
| `Sticky.PermanentDetachSticks` | src/manager.rs:723-815 | nor does any sequence of such steps, failed saves and, with persistency, restarts included, under whatever name of a given family the device is plugged in |
| `Sticky.TemporaryDetachLifts` | src/manager.rs:797-802 | a successful temporary detach lifts the mark |
| `Selection.HolderStaysSelected` | src/manager.rs:697-702 | over every run a held device is the selected one of its holder and is unmarked |
| `Selection.ReconcileKeepsChosen` | src/manager.rs:1108-1205 | a reconciliation keeps each held device the selected one of its holder and unmarked |
| `SuspendResume.SuspendOneView` | src/manager.rs:961-986 | a suspended device is held by nobody, has no record and no mark, and keeps its selection |
| `SuspendResume.AttachedMeans` | src/manager.rs:691-720 | an attach that reports success has recorded the device in the chosen VM at the current generation, listed there if the VM lists honestly |
| `SuspendResume.SuspendResumeRoundTrip` | src/manager.rs:961-1056 | a successful suspend and a successful resume that defers nothing put a device back into its VM, on record there at the current generation and listed at the recorded port, unless it was found to be a hub in its own turn of that resume |
| `Reconcile.ResumeOneAccounts` | src/manager.rs:1015-1056 | a device's turn in a pass that neither fails nor defers leaves it marked, recorded with its destination, pending, or skipped as a hub in that very turn |
| `Reconcile.ReconcileIsComplete` | src/manager.rs:1108-1125 | after a reconciliation that succeeds and defers nothing, every routed USB device is in one of those four states |
| `Reconcile.SkippedIsHub` | src/manager.rs:613-639 | a turn skips a device only where a hub driver is bound to one of its interfaces |
| `PciReconcile.AttachPciSettles` | src/manager.rs:834-900 | a successful PCI attach leaves everything handed over listed by the VM and on record, with the whole group under vfio-pci |
| `PciReconcile.ResumePciSettles` | src/manager.rs:1058-1089 | a clean PCI pass leaves every function marked or attached, if functions handed over together share a target |
| `SecondPass.ReconcileIsCompleteForPci` | src/manager.rs:1108-1125 | after a clean reconciliation every routed PCI function is marked, or attached to and recorded with its target VM |
| `Quiescence.ReadyIsQuiet` | src/manager.rs:548-721 | resuming a settled device issues nothing and records nothing, whatever fails |
| `Quiescence.ResumeIsQuiet` | src/manager.rs:1015-1056 | so does a pass over settled devices |
| `PciReconcile.ResumePciRests` | src/manager.rs:1058-1089 | a PCI pass over settled functions changes nothing but the saved copy and the deferral flag |
| `SecondPass.ReconcileIsQuiescent` | src/manager.rs:1108-1205 | a reconciliation, gate included, after a clean one over the same devices issues no Crosvm command, no notification and no PCI bind, and changes no record, whatever fails in it, if the hub drivers are still bound and what the first pass skipped as a hub still shows one |
| `Gate.GateKeepsClaims` | src/usb_gate.rs:145-147 | a pass of the gate leaves usbfs and hub bindings in place and never asks to release them |
| `Gate.GateFreesRouted` | src/manager.rs:363-386 | after a pass whose releases succeed, an interface of a routed device has no host driver |
| `Gate.NoAliasMeansOwned` | src/usb_gate.rs:124-143 | in a listing without the root-hub alias every interface entry belongs to one device |
| `Gate.StepStaysReleased` | src/manager.rs:311-386 | one pass keeps a released interface free and untouched, and its verdict remembered, whatever happens to other interfaces between passes |
| `Gate.NoBindUnbindCycle` | src/manager.rs:303-386 | over any number of passes with arbitrary verdicts and failures, an interface of a device that stays plugged in is released at most once and nothing is done to it afterwards |
| `GateRuns.AttachFrees` | src/manager.rs:602-690 | an attach brings no host driver to an interface unless configuring the device binds one |
| `GateRuns.NextStaysReleased` | src/manager.rs:303-386 | every step of the daemon keeps a released interface free and its verdict remembered |
| `GateRuns.RunNeverCycles` | src/manager.rs:303-386 | the same as a property of the daemon's runs, with operations, VMs and whole reconciliations between the passes of the gate |
| `GateProbes.PassProbesIff` | src/manager.rs:363-386 | in a pass that routes and lists, a driverless interface is probed, and gets the driver the kernel gives it, if and only if no unmarked device of its name is matched by a rule now or in memory |
| `GateProbes.HandedBackIsProbed` | src/manager.rs:363-386 | the case of a device handed back for good |
| `GateProbes.PassKeepsUnrouted` | src/manager.rs:373-385 | an interface that has a driver keeps it unless its device is routed |
| `GateProbes.PassConfiguresIff` | src/manager.rs:350-361 | a pass configures exactly the listed devices without a driver that the policy does not keep out once the host got what it may use |
| `GateProbes.OpeningConfiguresIff` | src/manager.rs:249-264 | reopening configures exactly those that are also not spared |
| `GateProbes.PassRemembers` | src/manager.rs:311-330 | a pass that routes remembers a verdict for exactly the devices it saw: a match now or in memory |
| `GateProbes.PassStops` | src/manager.rs:335-362 | where a pass stops, what it has not done: without the gate closed or the first scan nothing, without a gate or a listing only grants, without routing no release and no verdict; no grant where the policy is off |
| `Passes.GateGivesBackIff` | src/manager.rs:311-386 | within the daemon: an interface without a driver is given back if and only if no device of its name, unmarked in the persistent state, is matched by a rule or a remembered verdict |
| `Passes.GateConfiguresIff` | src/manager.rs:350-361 | a device without a driver is configured if and only if it is listed and the policy in force does not keep it out |
| `Passes.GateGrantsIff` | src/manager.rs:171-185 | a pass grants exactly the closed hubs and host-allowed devices it can write, where authorization is enforced, and changes no other bit |
| `Passes.ReopeningNeedsTheGate` | src/manager.rs:242-248 | reopening does nothing to a gate that is not closed or cannot be opened |
| `Passes.ReopeningGivesBackIff` | src/manager.rs:249-301 | otherwise it gives back exactly the driverless interfaces of devices it does not find at a remembered node and the policy does not keep out |
| `Passes.ReopeningConfiguresIff` | src/manager.rs:249-264 | and configures exactly such devices |
| `Gate.RoutedStaysRouted` | src/manager.rs:311-330 | a device routed in one pass is routed in every later one that gets to route, whatever the rules say then and whichever passes fail in between |
| `Gate.OpenLeavesHeldAlone` | src/manager.rs:249-279 | reopening does nothing to the interfaces of a device in the set it spares, or of one the policy keeps out |
| `Gate.OpenProbesIff` | src/manager.rs:233-301 | reopening probes a driverless interface of a listed device if and only if the scan did not yield the device as one whose node is remembered, and the policy does not keep it out |
| `Gate.OpenCanProbeHeldDevice` | src/manager.rs:286-301 | a device a VM lists is spared as long as the manager remembers it and the scan works, and probed if the scan fails or after a restart |
| `Gate.GateGrantsForHost` | src/manager.rs:335-346 | a pass grants the host what it may use and withdraws nothing; if no write fails, all of that |
| `DeviceManager.Manager.UsbRouting` | src/manager.rs:311-330 | the routing loop computes the routed names and replaces the remembered verdicts by those of the devices seen |
| `DeviceManager.Manager.SettleInterfaces` | src/manager.rs:373-385 | the settling loop over one device's interfaces |
| `DeviceManager.Manager.ApplyUsbGate` | src/manager.rs:335-388 | one pass of the gate: close, grant to the host, configure, route, settle, with an end at each failure |
| `DeviceManager.Manager.OpenUsbGate` | src/manager.rs:242-282 | the reopening, doing nothing where the gate is not closed or cannot be opened |
| `DeviceManager.Manager.UsbHeldByVms` | src/manager.rs:286-301 | the loop that collects the names to spare, none if the scan fails |
| `UsbNames.InterfacesDisjointIff` | src/usb_gate.rs:124-143 | two devices share an interface entry exactly when one is root hub `usbN` and the other is named `N-0` |
| `PciSpec.BindAllBinds` | src/manager.rs:866-868 | binding a quarantine changes drivers only, and on success every member is under vfio-pci |
| `PciSpec.QuarantineBeforeAdd` | src/manager.rs:866-889 | every add in the log comes after each member of the function's group was bound |
| `PciSpec.AttachPciQuarantines` | src/manager.rs:834-900 | the same on every path of a PCI attach; and a failure before the records leaves `pci_vms` and the persistent state as they were |
| `VmmArgs.BindQuarantine` | src/manager.rs:1235-1240 | binds the members not bound yet and fails exactly when one of them cannot be bound |
| `VmmArgs.EmitPassthrough` | src/manager.rs:1241-1259 | emits the functions not emitted yet, with the first device's choice of bus |
| `VmmArgs.PciArgs` | src/manager.rs:1207-1260 | succeeds exactly when the guards hold and every device's group can be read and bound; then each address is emitted once, the emitted set is the union of what is passed through, and nothing is emitted before its whole group is bound; an error tells which device stopped it |
| `PciRules.PciRuleFor` | src/config.rs:442-485 | the loop returns the first enabled rule with an allowed, undenied match and a target, with the counted order |
| `PciRules.OrderVersusPosition` | src/config.rs:442-485 | the order never exceeds the winning entry's global position and equals it exactly when each earlier enabled rule that saw a match saw it at its last allow entry |
| `PciRules.PositionIsLexicographic` | src/config.rs:442-485 | global positions compare as rule and entry index do |
| `PciRules.ListPciDevices` | src/manager.rs:390-409 | the listing loop drops unrouted and shared devices, fails on an unreadable group, and sorts by order and address |
| `PciRules.ListIsInPriorityOrder` | src/manager.rs:401-407 | where the counters count fully, the list is sorted by rule, allow entry and address |
| `PciRules.PriorityCanInvert` | src/manager.rs:390-409 | without that, the returned list can put a device of the second rule ahead of one of the first |
| `Storage.FixpointIsReachability` | src/device.rs:409-432 | at the fixpoint the backing set is exactly what is reachable from the device along slave links |
| `Storage.UsbBacksActiveStorage` | src/device.rs:409-440 | the loop ends and answers true exactly when a block under the device has holders or a reachable block is active, for cyclic graphs too |
| `Descriptors.DescriptorInterfaces` | src/device.rs:30-57 | on arbitrary bytes the walk ends, stays in bounds and returns the interfaces of the longest well-formed chain |
| `Descriptors.SplitBytes` | src/device.rs:39-43 | every byte string is such a chain followed by bytes at which no descriptor starts |
| `Descriptors.SplitIsUnique` | src/device.rs:39-43 | in one way only |
| `Descriptors.WalkInvertsEncoding` | src/device.rs:30-57 | the walk of an encoded chain returns its interfaces in order, whatever incomplete bytes follow |
| `Descriptors.WalkComposes` | src/device.rs:30-57 | walking a chain followed by anything is walking both |
| `Descriptors.WalkIgnoresTheTail` | src/device.rs:30-57 | the result depends on the longest well-formed prefix alone |
| `Descriptors.CollectInterfaces` | src/device.rs:256-268 | cached interfaces keep their first occurrences and have no duplicates, lists without duplicates stay as they are, and deduplication does not change whether the device is a hub |
| `World.PersistentIdIdentifies` | src/device.rs:156-162 | two ids are equal exactly when vendor, product and serial read the same |
| `World.UsbAndPciIdsDiffer` | src/device.rs:199-201 | USB and PCI ids never collide in the shared list of marks |
| `Marks.SetDisconnectedIsUpdate` | src/state.rs:75-84 | setting a mark is an update of the set the list means, even from a list with duplicates |
| `Marks.SetDisconnectedStaysSorted` | src/state.rs:75-84 | sorted lists without duplicates stay so |
| `Marks.MarkThenLift` | src/state.rs:75-84 | lifting a mark just set restores the list |
| `StateFile.State.SetDisconnected` | src/state.rs:75-84 | retain, push and sort, then save |
| `StateFile.State.SelectVm` | src/state.rs:86-91 | records the selection and saves |
| `StateFile.State.Save` | src/state.rs:93-119 | commits all of the state or nothing, and nothing when persistency is off |
| `Crosvm.UsbListRoundTrip` | src/crosvm.rs:101-117 | any rendering of a port listing, with its own whitespace at every gap, parses back to it |
| `Crosvm.NewPortIsIdentified` | src/crosvm.rs:137-147 | comparing the listings before and after an attach yields exactly the new port |
| `Crosvm.UsbAttach` | src/crosvm.rs:119-157 | the result follows from what the VM answered: "no free port" only after six such answers in a row, and an "ok" that names a port, after fewer, gives that port; an Ok result is the fresh port the device occupies; an error leaves the table as it was, except when the identifying listing fails |
| `Crosvm.VfioAdd` | src/crosvm.rs:192-209 | no command where the function is listed; otherwise one, and the listings that follow decide: success as soon as one shows the function, and never without |
| `Crosvm.VfioRemove` | src/crosvm.rs:211-228 | the same for removal: success exactly once a listing does not show the function any more |
| `Machine.Surroundings.BindVfio` | src/crosvm.rs:231-251 | a successful bind leaves the function under vfio-pci and touches nothing it already finds there |
| `Escape.EscapeControl` | src/bin/ghaf-device.rs:212-218 | the loop renders every character |
| `Escape.DecodeEscape` | src/bin/ghaf-device.rs:195-218 | a decoder recovers every string from its rendering |
| `Escape.EscapeInjective` | src/bin/ghaf-device.rs:195-218 | two strings never render alike |
| `Escape.EscapeIsHarmless` | src/bin/ghaf-device.rs:195-218 | no rendering contains a control or bidirectional character |
| `Escape.EscapeIsIdentity` | src/bin/ghaf-device.rs:195-218 | text passes unchanged exactly when nothing in it needs an escape |
| `Escape.EscapeField` | src/bin/ghaf-device.rs:223-237 | the truncating loop equals escaping when that fits, and otherwise the escape of the longest prefix that fits, plus the marker |
| `Escape.FitIsUnique` | src/bin/ghaf-device.rs:223-237 | any maximal fitting prefix is that prefix |
| `Escape.FieldIsCapped` | src/bin/ghaf-device.rs:220-237 | at most 259 characters, never cut inside an escape, at most seven characters wasted |
| `Escape.FieldIsHarmless` | src/bin/ghaf-device.rs:223-237 | no field contains a control or bidirectional character |
| `Escape.CutIsAmbiguousIff` | src/bin/ghaf-device.rs:187-189 | a cut rendering can be mistaken for an uncut one exactly when the part kept leaves room for the marker |
| `Escape.CutCanBeAmbiguous` | src/bin/ghaf-device.rs:187-189 | a concrete field over the cap whose cut rendering is also the rendering of an uncut one |
| `DeviceManager.Manager.constructor` | src/manager.rs:98-123 | a daemon that starts knows the saved state and nothing else |
| `DeviceManager.MatchingPorts` | src/manager.rs:776-782 | the search collects every port that shows the device |
| `DeviceManager.Manager.ReleasePort` | src/manager.rs:757-790 | takes back the recorded port, or the only one showing the device, or refuses |
| `DeviceManager.Manager.DetachOneUsb` | src/manager.rs:735-816 | one detach, on every exit |
| `DeviceManager.Manager.Claim` | src/manager.rs:616-639 | the claim loop, with its stops at a hub and at a failed release |
| `DeviceManager.Manager.RecordAttachment` | src/manager.rs:697-720 | the records after an attach, with a save after each and an exit at each failed one |
| `DeviceManager.Manager.AttachAnew` | src/manager.rs:682-696 | the attach command, the commit of the guard and the return of the stale port |
| `DeviceManager.Manager.ConnectDevice` | src/manager.rs:640-690 | reuses a binding that still describes the device, or attaches anew |
| `DeviceManager.Manager.AttachUnderGuard` | src/manager.rs:602-721 | the part of an attach under the authorization guard, dropped on every exit |
| `DeviceManager.Manager.AttachInto` | src/manager.rs:579-602 | the checks, the preflight listing and the move out of another VM |
| `DeviceManager.Manager.AttachOneUsb` | src/manager.rs:548-578 | the choice of the VM, the request to select one, and the refusals |
| `DeviceManager.Manager.SuspendUsbDevices` | src/manager.rs:961-986 | the suspend loop and its collected failures |
| `DeviceManager.Manager.ResumeOneUsb` | src/manager.rs:1019-1053 | one device of a resume, with the deferral for a stopped VM |
| `DeviceManager.Manager.ResumeUsbDevices` | src/manager.rs:1015-1056 | the resume loop and its collected failures |
| `DeviceManager.Manager.AttachPciFunction` | src/manager.rs:834-900 | one PCI attach, on every exit |
| `DeviceManager.Manager.DetachPciFunction` | src/manager.rs:914-959 | one PCI detach, on every exit |
| `DeviceManager.Manager.SuspendPciFunctions` | src/manager.rs:988-1013 | the PCI suspend loop and its collected failures |
| `DeviceManager.Manager.ResumePciFunctions` | src/manager.rs:1058-1089 | the PCI resume loop |
| `DeviceManager.Manager.ForgetUsb` | src/manager.rs:1145-1184 | forgetting one unplugged device |
| `DeviceManager.Manager.ObserveUsbDevices` | src/manager.rs:1127-1186 | the USB half of an observation |
| `DeviceManager.Manager.ObservePciFunctions` | src/manager.rs:1188-1204 | the PCI half of an observation |
| `DeviceManager.Manager.AuthorizeForHost` | src/manager.rs:171-185 | the host authorization loop, passing over failed writes |
| `DeviceManager.Manager.DeauthorizeUnmatched` | src/manager.rs:209-231 | the sweep, ending at the first failed write |
| `DeviceManager.Manager.ReconcileDevices` | src/manager.rs:1108-1125 | one reconciliation: the gate, the observation with its early return, both resumes, the sweep, the collected verdict, each scan failing or not |
| `DeviceManager.Manager.ObserveDevices` | src/manager.rs:1127-1205 | the whole observation |

## Left out

- SuspendResumeRoundTrip: a rule's `targetVm` other than the VM the device was in sends it there instead, as the code intends; the statement excludes that case.
- NoBindUnbindCycle: takes the releases of the interface to succeed, since a release that fails is asked for again in the next pass.
- RunNeverCycles: the same, and no daemon restart, since the verdicts are kept in memory.
- HeldAtMostOnce: excludes steps in which something fails after Crosvm took the device, attaches that would leave the device in two places (`Restart.AttachExclusiveIff` is exact), and restarts that lose the records of taken ports.
- SteadilyHeldAtMostOnce: a name stands for another device only once nothing is remembered under it.
- BindVfio: unbind, override and probe are one step, whose success is taken to mean that the function is bound; a bind that fails half way leaves the driver as it was.
- Two devices with the same vid:pid or the same persistent id: several run properties do not hold for them, because of the fallback search at detach and the verdicts kept by id.
- Interleavings inside one operation, and re-enumeration of a device between two scans of one pass.
- Selection by API selector, and the loops of the API calls over the selected devices: a run takes each selected device as a step of its own.
- The texts of errors: a pass that fails is stated to fail, and exactly when, but not which devices its message lists.
- USB rule lookup, selector matching, regular expressions, the hardware database and driver lookup: the verdict of the rules is an argument.
- The USB and PCI listings for clients, the JSON protocol, sockets, event monitoring and signals.
- The default authorization attributes of root hubs, written once at start.
- Parsing of the PCI listing, and PCI scan details beyond the order of the result.
- evdev and ACPI arguments, ownership and permissions of files.
- The format of the state file: reading it back yields what was saved, or the default.
- Integer widths: ports are natural numbers in the world and checked to be 8-bit values where text is parsed.
