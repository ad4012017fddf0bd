# easyshift in Dafny

easyshift provisions single-node OpenShift clusters on a laptop: libvirt on
Linux, vfkit on macOS. This project models the parts of it where order,
interruption and shared state matter, and proves what they promise.

## The cluster lifecycle

`Lifecycle.dfy` is a state machine over one world: config.json in memory and on
disk, a state.json per cluster, the shared NAT network with its DHCP
reservations, the master VMs, and where the running command is. One step is one
stage applied, one record written, one failure, one rollback, one action of
`nat-network reset`, or the death of the process at any point, after which the
next command starts from what is on disk. Every statement about runs is about
all finite sequences of steps.

* `Safety.dfy`: no two registered NAT clusters ever share an address, and every
  address a registered cluster holds stays marked, in memory and on disk.
* `Records.dfy`: the recorded stages are always a prefix of the pipeline.
  `Inputs.dfy`: so what a stage needs is there when it is applied, and is undone
  only after everything that needs it.
* `Reservations.dfy`: DHCP reservations stay consistent over runs from any
  consistent host, whatever stages and saves fail; where a process may not die,
  exactly.
* `RoundTrip.dfy`: create, however far it gets, then delete restores the world.
* `Resume.dfy`: any sequence of interrupted creates that ends well ends where one
  uninterrupted create ends. `Retry.dfy`: when an attempt gets through, exactly.
* `Leftovers.dfy`: the situations in which the above fails, and runs that reach
  each of them.
* `Entries.dfy`: which commands start, on what, and what the cluster's entry says
  while it is deleted, stated on the cluster list.
* `Retrace.dfy`: a delete stopped between two stages leaves what a create stopped
  there leaves, and creating the cluster again brings back the very same one.
* `NatReset.dfy`: a reset converges, what it leaves alone, and when it starts.

`Config.dfy`, `Allocator.dfy`, `Stages.dfy`, `Runner.dfy` and `Manager.dfy` take
the form of the Go code: objects whose fields are written in place through shared
pointers, loops over the pipeline and over the address pools, a random source and
providers that may fail. Each command is proved to be a run of the state machine
of a known shape (`Traces.dfy`). Out-parameters called `trace`, `steps` or `l` are
ghost and name that run. `Trouble` is ghost too: some call to a provider, a tool or
the file system, or some write, has failed. A command that met no trouble reports
success exactly when its contract says it can.

`Sessions.dfy` and `Commands.dfy` put processes together: each loads config.json,
creates or deletes, and ends; retried creates, a create and its delete, and any
sequence of the two are methods whose contracts are the theorems above. A process
that dies inside a command has done a part of its trace; the lemmas of
`Sessions.dfy` hold for every part.

## The other components

* `Vfkit.dfy`: the two-phase VM supervisor of macOS as interleaved steps of
  Create, concurrent Starts and the reboot watcher. `VfkitLive.dfy` and
  `VfkitRace.dfy`: which steps keep it to one process per disk image, exactly.
* `LibvirtXml.dfy`: the network definition easyshift prints and the regular
  expressions that read it back; this is what justifies the lifecycle's network.
* `Defaults.dfy`, `Ipv4.dfy`, `CommandLine.dfy`, `Keyfiles.dfy`: a new cluster's
  settings from its flags to its base domain and its static-network keyfile.
* `SystemdEscape.dfy`, `Ignition.dfy`: mount-unit names, and the edits of the
  ignition under retries.
* `CaBundle.dfy`: adding the local CA to a kubeconfig.
* `Dns.dfy`: the DNS records of several clusters in one zone.
* `DeviceAuth.dfy`: device-code polling under RFC 8628, sections 3.2 and 3.5.
* `Text.dfy`, `Addresses.dfy`, `Model.dfy`: what the others share.

## What does not hold, and when exactly

Each of these is a lemma with the exact condition, or one with the failing runs.

* On macOS publish-pxe-assets records its stage without saving the kernel command
  line. If the process ends between that and merge-kubeconfig's save, the
  resumed create boots a VM with an empty command line
  (`Resume.ResumeRefinesCleanRun`, `Resume.UnsavedExact`; reached by
  `Leftovers.LostReachable`).
* On Linux a process that ends after virt-install and before create-master-vms is
  recorded leaves a VM that no further create gets past (`Retry.ResumeGetsThrough`,
  `Retry.StuckForEver`; `Leftovers.StuckReachable`).
* A process that ends between removing a reservation and erasing its record, or
  inside a network recreate, leaves a cluster without its reservation
  (`Reservations.DeathExact`; `Leftovers.RollbackWindowReachable`,
  `Leftovers.RecreateWindowReachable`). Running the reset again does not bring it
  back (`NatReset.RerunRestoresNothing`); a recreate that stops right after its
  tear-down leaves no network at all (`NatReset.StoppedAtTearDown`).
* A process that ends after a reservation was added but before create-network is
  recorded, followed by a delete, leaves a reservation nobody owns
  (`Reservations.ReleaseExact`), which later silently blocks another cluster's
  (`Reservations.CreateNetworkExact`).
* A process that ends between register-cluster's rollback and the write of
  state.json leaves a record of a cluster that is gone
  (`Leftovers.LeftOverRecord`); the next create of that name skips registration
  and works on a cluster that is never listed (`Leftovers.StaleRecordExact`).
* The other way round, a cluster that is listed while register-cluster is not
  recorded stays listed after a delete that reports success
  (`Traces.DeleteUnlists`).
* A bridge cluster whose addresses lie in easyshift's pools frees another
  cluster's marks when it is rolled back (`Safety.BridgeReleaseExact`).
* When the address pool has run out, a retry in the same process reports success
  for a cluster without an address (`Safety.ExhaustedRetry`).
* Two vfkit processes can run on one disk image: after a forced stop that gives up
  waiting (`VfkitRace.StopTimesOut`), or when a Start meets the watcher's switch
  (`VfkitRace.StartBesideWatcher`). Which steps allow it is exact
  (`VfkitRace.CalmIsExact`).
* A Create that writes its phase into another launch can have Linux booted twice
  (`Vfkit.CreateIntoALaunch`, `VfkitRace.CreateMeetsLaunch`).
* embed-ignition-iso is not idempotent when the image store is baked
  (`Ignition.EmbedRetryExact`).
* Deleting the records of a cluster with an IPv6 master leaves its AAAA records
  (`Dns.UpsertThenDelete`).
* An accepted bridge cluster with an IPv6 machine network and no gateway fails when
  its keyfile is rendered (`Defaults.KeyfileExact`).
* A create of a stopped cluster that was once finished marks it running without
  booting its VM (`Entries.StoppedResumes`).
* The base domain that a wildcard DNS service gives is derived once. When a delete
  released the addresses and stopped, and the cluster is created again, the domain
  names its new address if and only if that is the old one
  (`CommandLine.DomainOfFirstAddress`).
* The comment on systemdEscapePath says inner dots are kept; the code escapes them
  (`SystemdEscape.DocumentedExact`). The model follows the code.
* resolveMagicDNS alone is not idempotent; applyDefaults is
  (`Defaults.ResolveTwice`, `Defaults.DefaultsTwice`).

## Assumptions

One command runs at a time; file writes are atomic; a failed write is reported and
ends the command. Saving config.json or state.json and loading it back is the
identity on the modelled fields. libvirt refuses a reservation that shares its MAC,
IP or name with one it holds, and easyshift takes that "already" for success; a
removal names the exact entry. virt-install refuses a name that is defined already;
vfkit overwrites. The removal of the cluster directory at the end of
Delete succeeds. DNS providers follow the libdns contract, with A records for IPv4
addresses and AAAA records for IPv6 ones. pem.Decode yields the blocks that stand on
lines of their own. No text that is an IPv6 address holds a comma or a semicolon.
Stages outside the model may fail but change nothing modelled.

## Model

| member | source | states |
|---|---|---|
| Addresses.FreeIPNone | stages/allocatenetwork/allocator.go:63-73 | the pool scan fails if and only if every address it looks at is used |
| Addresses.FreeIPIsLowest | stages/allocatenetwork/allocator.go:63-73 | the address handed out is the lowest free one |
| Addresses.AllocationSucceeds | stages/allocatenetwork/allocator.go:63-73 | with fewer than 16 marks the scan cannot fail |
| Addresses.PoolIPInjective | stages/allocatenetwork/allocator.go:64-66 | different host numbers print as different addresses |
| Addresses.MacReadsBack | stages/allocatenetwork/allocator.go:89-94 | a generated MAC is 52:54:00 and three bytes, each of which is read back from its two hexadecimal digits |
| Addresses.MacInjective | stages/allocatenetwork/allocator.go:89-94 | two draws give one MAC if and only if they are the same draw |
| Addresses.FreeMACNone | stages/allocatenetwork/allocator.go:75-87 | the bounded draw fails if and only if each draw it may read is in use |
| Addresses.DistinctDrawsSuffice | stages/allocatenetwork/allocator.go:75-87 | different draws, more than there are marks and no more than the attempts, cannot all be refused |
| Addresses.AllocIPsFresh | stages/allocatenetwork/allocator.go:39-48 | a batch of IPs is duplicate-free, from the pool, unused before, and exactly the new marks; a failed batch keeps its marks |
| Addresses.AllocMACsFresh | stages/allocatenetwork/allocator.go:24-33 | the same for MACs under easyshift's prefix |
| Model.Find | app/manager.go:228-235 | a cluster is found exactly when one with the name is listed, and it carries that name |
| Model.SpliceKeeps | stages/registercluster/stage.go:31-39 | removing a cluster from a list of unique names removes that one and keeps every other |
| Model.MasterNameInjective | stages/createnetwork/stage.go:77-83 | reservations of different clusters have different hostnames |
| Text.LowerExact | app/natreset.go:176-178 | lower-casing identifies exactly the texts that differ in the case of letters only, so MACs are compared without case |
| NatReset.PlanExact | app/natreset.go:36-114 | a plan has work if and only if the range is to be replaced or a reservation or a mark has no cluster; it recreates exactly in the first case, and is blocked if and only if that would cut off a running NAT cluster and force is not set |
| NatReset.ResetHosts | app/natreset.go:118-166 | the reservations after a completed reset: those of the known clusters after a recreate, the old ones without the orphans otherwise |
| NatReset.ResetConverges | app/natreset.go:49-166 | after a completed reset a fresh plan has no work, on both branches |
| NatReset.ResetFrames | app/natreset.go:118-166 | no known address is freed, every unknown mark is, the cluster list is untouched, and each known reservation survives or is restored |
| NatReset.RerunRestoresNothing | app/natreset.go:125-150 | a recreate stopped anywhere after its tear-down is not repaired by running the reset again |
| NatReset.StoppedAtTearDown | app/natreset.go:125-138 | stopped right after the tear-down, the network is gone |
| Lifecycle.StagesDistinct | app/manager.go:69-98 | on both systems every stage has one position in the pipeline |
| Lifecycle.BootRefInjective | stages/embedignitioniso/stage.go:69-75 | clusters never share a boot reference and none is empty |
| Safety.ApplyOk | stages/allocatenetwork/stage.go:21-43 | every stage's Apply keeps names unique, NAT addresses disjoint and held addresses marked |
| Safety.UndoOk | stages/allocatenetwork/stage.go:55-60 | every stage's Rollback keeps that invariant |
| Safety.StepSafe | app/manager.go:102-219 | every step keeps address safety in memory and on disk |
| Safety.RunSafe | app/manager.go:102-219 | address safety over every run, with failures, failed saves and deaths anywhere |
| Safety.AddressesNeverShared | stages/allocatenetwork/allocator.go:23-87 | from a fresh installation: distinct NAT clusters share no IP or MAC and every held address is marked, in both copies of config.json |
| Safety.BridgeReleaseExact | stages/allocatenetwork/stage.go:25-33 | allocating and releasing a bridge cluster keeps another cluster's marks if and only if it holds neither address |
| Safety.AllocationAfterReset | stages/allocatenetwork/allocator.go:63-73 | in every safe world, after a reset a single-master cluster always gets an address |
| Safety.ExhaustedRetry | stages/allocatenetwork/allocator.go:33-46 | for a single master whose first MAC draw is unused: the allocation fails and a retry in the same process succeeds without addresses, if and only if every address of the pool is marked |
| Records.StepRecords | app/runner.go:60-110 | every step keeps the recorded stages a prefix of the pipeline |
| Records.RecordedStagesArePrefix | app/runner.go:60-110 | in every reachable world, including after deaths, each state.json records a prefix |
| Records.ThroughMeansRecorded | app/manager.go:142-151 | a create that is through has every stage recorded |
| Inputs.NeedsAreMade | app/manager.go:69-98 | over every run, deaths included, a stage is applied only when everything it needs was made by a stage that is recorded |
| Inputs.NothingNeedsTheUndone | app/runner.go:89-110 | over every run, a stage is rolled back only when no stage that is still recorded needs what it made |
| Reservations.DistinctReservations | stages/createnetwork/stage.go:77-83 | reservations of different registered NAT clusters never clash |
| Reservations.CreateNetworkExact | stages/createnetwork/stage.go:47-66 | after create-network the reservation is there if and only if it was already, or nothing clashed with it |
| Reservations.NoOtherClash | providers/libvirt/libvirt.go:323-330 | in a clean run the "already" answer can only be about the cluster's own reservation |
| Reservations.StepRes | app/manager.go:102-219 | every clean step keeps the reservation invariant, failed stages, saves and rollbacks included |
| Reservations.ReservationsConsistent | stages/createnetwork/stage.go:47-75 | over every clean run from any consistent host, between commands each NAT cluster recorded past create-network has its reservation and no other reservation exists |
| Reservations.FreshConsistent | config/config.go:249-280 | a host without clusters is consistent, whatever DHCP range its network was built with |
| Reservations.DeathExact | app/runner.go:95-108 | a death leaves the persisted world consistent if and only if it is outside the two windows |
| Reservations.ReleaseExact | stages/allocatenetwork/stage.go:55-60 | releasing addresses leaves no unowned reservation if and only if the cluster's own is gone |
| RoundTrip.CreateBoundary | app/runner.go:60-84 | what the world looks like after any number of successful stages |
| RoundTrip.RollbackRestores | app/runner.go:89-110 | rolling back from any boundary restores the world the create began in |
| RoundTrip.DeleteRestores | app/manager.go:198-219 | the whole delete command does |
| RoundTrip.CreateThenDelete | app/manager.go:102-219 | create with success or failure in any stage, then delete, restores the list, the marks, the reservations, the VMs and leaves no state.json |
| Resume.RegisterAt | stages/registercluster/stage.go:20-29 | register-cluster applied for the first time or again cannot fail and reaches its level |
| Resume.AllocateAt | stages/allocatenetwork/stage.go:21-43 | allocate-network fails if and only if it is a first allocation and the addresses are used up; otherwise it reaches its level, keeping addresses it finds |
| Resume.BootMediaAt | stages/publishpxeassets/stage.go:58-91 | the boot media stage, first or again, cannot fail and reaches its level, its reference saved or not |
| Resume.NetworkAt | stages/createnetwork/stage.go:47-66 | create-network after any partial try cannot fail and reaches its level |
| Resume.AddTwice | providers/libvirt/libvirt.go:290-330 | ensuring the network and adding a reservation are idempotent |
| Resume.VMsAt | stages/createmastervms/stage.go:139-146 | create-master-vms fails if and only if on Linux the VM is there already; otherwise it reaches its level |
| Resume.FinalizeAt | stages/finalize/stage.go:20-23 | finalize, first or again, cannot fail and reaches its level |
| Resume.RetryAt | app/runner.go:66-81 | retry tolerance of every stage: wherever attempts have led, the next stage is applied and reaches its level, if and only if neither of the two refusals applies |
| Resume.StageAt | app/runner.go:66-81 | with saves that may fail too: a stage comes back applied at its level, or with an error exactly then, leaving nothing new behind |
| Resume.RunAt | app/runner.go:60-84 | where any sequence of attempts with failures and deaths can be |
| Resume.UnsavedExact | stages/publishpxeassets/stage.go:89-91 | the command line can be lost in config.json exactly on macOS, past the boot media stage, before it was saved |
| Resume.ResumeRefinesCleanRun | app/runner.go:60-84 | the first attempt that gets through ends in the world of one uninterrupted create for some MAC draws, if and only if no process ended in that situation |
| Resume.LinuxNeverLoses | stages/embedignitioniso/stage.go:69-75 | on Linux none ever does |
| Retry.ResumeGetsThrough | app/runner.go:60-84 | after any attempts, one more that nothing disturbs finds the cluster running or gets through all stages, if and only if no VM is there unrecorded and the addresses were or can be allocated |
| Retry.StuckForEver | providers/libvirt/libvirt.go:56-96 | once a VM is there unrecorded on Linux, no further attempts ever get through |
| Leftovers.StaleRecordExact | app/runner.go:60-84 | a create of an unlisted name lists the cluster if and only if no state.json says it was registered, past the first stage, whatever succeeds, fails or is skipped |
| Leftovers.LeftOverRecord | app/runner.go:100-107 | a run that ends with the cluster unlisted and its registration recorded |
| Leftovers.StuckReachable | app/runner.go:72-81 | a run that ends with the VM there and its stage unrecorded |
| Leftovers.LostReachable | stages/publishpxeassets/stage.go:89-91 | a run that loses the command line and still gets through |
| Leftovers.RollbackWindowReachable | app/runner.go:100-107 | a clean run to the point where a rollback has removed a reservation and not yet erased its record |
| Leftovers.RecreateWindowReachable | app/natreset.go:125-150 | a clean run to the point where a recreate has torn down a network whose reservations are still to be restored |
| Leftovers.FreshStarts | config/config.go:249-280 | these runs start on a fresh host, among others |
| Traces.DeleteUnlists | app/manager.go:198-219 | a delete that ran to its end, no rollback failing, leaves the cluster listed if and only if its registration was not recorded |
| Entries.CreateBegins | app/manager.go:102-137 | from every idle world: a create starts on the first listed cluster of the name unless that is running, whatever its state otherwise; with none listed on the spec, if and only if it is acceptable and fewer than three clusters are listed; otherwise nothing happens |
| Entries.AcceptedBegins | app/manager.go:117-121 | settings that pass validation describe a cluster on which a create of an unlisted name starts |
| Entries.StoppedResumes | app/manager.go:110-152 | an undisturbed create of a cluster that is not running and has every stage recorded ends with its entry running in memory and on disk, and nothing else changed |
| Entries.StateSet | app/manager.go:156-194 | start and stop change the state of the first entry of the name and nothing else, exactly when it is not running or is |
| Entries.ResetBegins | app/natreset.go:49-123 | a reset starts if and only if there is something to do and it would not cut off a running cluster without force |
| Entries.DeletingIsNotRunning | app/manager.go:198-219 | along every run of a delete, through rollbacks, failures and failed saves, the entry is not running in memory, nor on disk once anything was saved; deaths included if it began on what is on disk |
| Entries.HalfDeletedIsCreating | stages/finalize/stage.go:25-28 | once finalize's rollback has run and been saved, the entry is creating in memory and on disk, whatever the rest of the delete does and wherever it dies |
| Entries.RollbackSaves | app/runner.go:89-110 | a rollback brings config.json level with memory exactly for the five stages that save, if it and its save succeed, and leaves it alone otherwise |
| Entries.InterruptedDeleteResumes | app/manager.go:110-116 | wherever a delete dies before it unregisters the cluster, the next create of the name starts on the entry that is left |
| Entries.DeleteLeavesNotRunning | app/manager.go:198-219 | the same for the trace of a whole delete command that got past its first save |
| Retrace.BackAt | app/runner.go:89-110 | the world after any number of rollbacks of a finished cluster, in closed form |
| Retrace.Retraces | app/runner.go:60-110 | stopped between two stages, the delete of a finished cluster leaves the world that a create stopped at the same place leaves, beside the shared network; on macOS with the command line kept |
| Retrace.UndoneAndRedone | app/runner.go:60-110 | after such a delete that has not released the addresses, one undisturbed create restores exactly the world with the finished cluster, whatever it would draw |
| Config.Config.Save | config/config.go:282-292 | the file becomes what memory holds, or stays |
| Config.Config.Load | config/config.go:249-280 | a new process has fresh objects holding what the file says |
| Config.Config.FindCluster | app/manager.go:228-235 | returns the listed object the specification finds |
| Allocator.Allocator.AllocateIP | stages/allocatenetwork/allocator.go:63-73 | the loop returns what the scan finds and marks it; it fails if and only if the hosts 5 to 20 are all marked |
| Allocator.Allocator.AllocateMAC | stages/allocatenetwork/allocator.go:75-87 | the bounded retry loop over the random source; it fails if and only if the address of each of the first 100 draws, or of all there are, is marked |
| Allocator.Allocator.Allocate | stages/allocatenetwork/allocator.go:23-50 | fields and marks after success and after failure at any node |
| Allocator.Allocator.Release | stages/allocatenetwork/allocator.go:54-61 | exactly the cluster's marks go |
| Stages.Context.RegisterApply | stages/registercluster/stage.go:20-29 | the object joins the list once, with its state, and is saved |
| Stages.Context.RegisterRollback | stages/registercluster/stage.go:31-39 | the first entry of the name leaves the list |
| Stages.Context.AllocateApply | stages/allocatenetwork/stage.go:21-43 | the stage in both network modes, with its failures and its save |
| Stages.Context.AllocateRollback | stages/allocatenetwork/stage.go:55-60 | marks and fields are cleared and saved |
| Stages.Context.BootMediaApply | stages/embedignitioniso/stage.go:33-75 | the boot reference is stored, and saved only on Linux |
| Stages.Context.CreateNetworkApply | stages/createnetwork/stage.go:47-66 | ensure, then add, either of which may fail |
| Stages.Context.CreateNetworkRollback | stages/createnetwork/stage.go:68-75 | the cluster's own reservation is removed, nothing else |
| Stages.Context.CreateVMsApply | stages/createmastervms/stage.go:139-146 | the VM is created with the MAC and boot reference of the cluster, or refused |
| Stages.Context.CreateVMsRollback | stages/createmastervms/stage.go:148-156 | the VM is deleted |
| Stages.Context.MergeKubeconfigApply | stages/mergekubeconfig/stage.go:54-66 | config.json is saved before the rest may fail |
| Stages.Context.FinalizeApply | stages/finalize/stage.go:20-23 | the state becomes running and is saved |
| Stages.Context.FinalizeRollback | stages/finalize/stage.go:25-28 | the state becomes creating and is saved; `Entries.HalfDeletedIsCreating` says what that means for a delete |
| Runner.Runner.ApplyStage | app/runner.go:72-74 | running any stage is one step of the state machine |
| Runner.Runner.Turn | app/runner.go:66-81 | one turn of the loop: a recorded stage is skipped, another applied and recorded; without trouble it is the next turn of an undisturbed create, failing exactly when that does |
| Runner.Runner.Apply | app/runner.go:60-84 | the loop is a run: it skips what is recorded, stops at the first failure, and on success every stage is recorded; without trouble it ends exactly where an undisturbed create ends, and fails if and only if that is refused |
| Runner.Runner.Rollback | app/runner.go:89-110 | the loop is a run: each recorded stage is called exactly once, last first, past stage errors, and names outside the pipeline stay recorded; without trouble it succeeds and every rollback answered |
| Runner.Runner.RollbackNext | app/runner.go:101-107 | one rollback and the rewrite of state.json, whatever the stage answered |
| Runner.Runner.HostRollback | stages/ensureclusterdir/stage.go:24-26 | ensure-cluster-dir's rollback removes state.json itself |
| Manager.ClusterManager.Create | app/manager.go:102-152 | the command is a run that keeps addresses safe: it begins this cluster, works on stages, and finishes or gives up; success means it finished with every stage through. Without trouble it succeeds if and only if an undisturbed create gets through, leaves exactly the world that leaves, and does nothing if and only if it cannot begin |
| Manager.ClusterManager.FinishCreating | app/manager.go:140-152 | the state is set to running after the last stage, without touching the VM |
| Manager.ClusterManager.VMNames | app/manager.go:391-400 | the masters' and the workers' VMs by number; the one VM of an accepted cluster is the one its reservation names |
| Manager.ClusterManager.StartCluster | app/manager.go:156-176 | a run that keeps addresses safe; success means a cluster that was not running was marked and saved, and without trouble the one follows from the other |
| Manager.ClusterManager.StopCluster | app/manager.go:179-194 | likewise for a running cluster |
| Manager.ClusterManager.Delete | app/manager.go:198-219 | a run that keeps addresses safe: it begins, rolls back, and finishes or gives up; success means every recorded stage was rolled back once, last first, state.json is gone, config.json is saved, and with no rollback failing the cluster is listed if and only if its registration was not recorded. Without trouble it succeeds if and only if the cluster is listed |
| Manager.ClusterManager.FinishDeleting | app/manager.go:214-218 | the cluster directory goes and the config is saved |
| Manager.ClusterManager.KnownAddrs | app/natreset.go:170-181 | the addresses of the registered clusters, MACs in lower case |
| Manager.ClusterManager.PlanNATReset | app/natreset.go:49-114 | the loops compute the plan of the specification; when that has work or is blocked is `NatReset.PlanExact` |
| Manager.ClusterManager.ResetNATNetwork | app/natreset.go:49-166 | a run that keeps addresses safe; where it would cut off a running cluster without force it fails and nothing changes; on success config and network are those of a completed reset. Without trouble it succeeds in every other case, and acts if and only if there is something to do |
| Manager.ClusterManager.ApplyNATReset | app/natreset.go:118-166 | carrying a plan out is a run; on success all its actions happened and the pruned config is on disk |
| Manager.ClusterManager.RestoreReservations | app/natreset.go:138-148 | the loop restores one reservation per NAT cluster with addresses, in order |
| Sessions.ProcessEnds | config/config.go:249-280 | to the next process it is all the same whether the last one gave up or died |
| Sessions.FinishedIsClean | app/manager.go:139-152 | after a process that finished its create, behind any attempts, the host is as one clean create leaves it, if and only if no process ended with the command line unsaved |
| Sessions.CreateStaysConsistent | app/manager.go:102-152 | wherever a create's process ends, even by dying, reservations stay consistent, if it met no state.json of an unlisted cluster |
| Sessions.DeleteStaysConsistent | app/manager.go:198-219 | wherever a delete's process ends, no rollback failing, reservations are consistent if and only if that is outside the window; a delete that ran to its end always is |
| Sessions.CreateEndsAsCommand | app/runner.go:60-84 | wherever a create's process ends, unless between a stage and its record, it leaves what some create with so many successful stages leaves |
| Sessions.DeleteEndsAsCommand | app/runner.go:89-110 | whatever saves failed on the way, a delete that ran to its end leaves what one without failures leaves |
| Sessions.ProcessesRestore | app/manager.go:102-219 | such a create and such a delete, one after the other, restore the host |
| Commands.Machine.Create | cmd/easyshift/main.go:186-193 | a process that loads config.json and creates: the host is where its trace and its end lead, addresses safe; without trouble it succeeds if and only if an undisturbed create from that host gets through |
| Commands.Machine.Delete | cmd/easyshift/main.go:291-300 | likewise for a delete, which does nothing if and only if the cluster is not listed, leaves no running entry of the name once its first save succeeded, and without trouble succeeds if and only if the cluster is listed |
| Commands.Machine.RetryCreate | cmd/easyshift/main.go:186-193 | creates until one succeeds: then the host is as one clean create leaves it, if and only if no process ended with the command line unsaved |
| Commands.Machine.Execute | cmd/easyshift/main.go:36-40 | one command in its process keeps addresses safe, and reservations consistent if it was careful |
| Commands.Machine.RunAll | cmd/easyshift/main.go:36-40 | any sequence of creates and deletes keeps addresses safe, and reservations consistent if each was careful |
| Commands.Machine.CreateAndDelete | cmd/easyshift/main.go:291-300 | a create and a delete of the same cluster leave the host as it was, if no write of state.json failed under the create, no rollback failed, and the delete succeeded or found nothing, the last two of which hold without trouble |
| Vfkit.StepKeeps | providers/vfkit/vfkit.go:98-225 | every orderly step keeps the protocol's invariant |
| Vfkit.TwoPhases | providers/vfkit/vfkit.go:98-225 | over every orderly interleaving the Linux bootloader is spawned at most once per Create, all later spawns use EFI, and at most one watcher lives, exactly while watching is set |
| Vfkit.RunPhaseIsFinal | providers/vfkit/vfkit.go:123-131 | once handed over, the phase stays run until the next Create and every spawn uses EFI, over every interleaving |
| Vfkit.CreateIntoALaunch | providers/vfkit/vfkit.go:114-117 | from any state in which a Create is about to write its phase into another launch, Linux can be spawned twice, so the guard on orderly runs is needed |
| VfkitLive.LoneStep | providers/vfkit/vfkit.go:98-284 | every calm step keeps the single-process invariant |
| VfkitLive.OneProcess | providers/vfkit/vfkit.go:193-225 | over every interleaving of calm steps no two vfkit processes are ever alive |
| VfkitLive.NewProcessIsLone | providers/vfkit/vfkit.go:98-133 | it holds for a new command beside at most one process of an earlier one |
| VfkitRace.CalmIsExact | providers/vfkit/vfkit.go:98-284 | a calm step keeps the invariant; after one that is not, the goroutines that are there can go on to two processes |
| VfkitRace.StopTimesOut | providers/vfkit/vfkit.go:264-275 | a calm run of a first command to a forced stop which, timing out, is followed by a second process |
| VfkitRace.StartBesideWatcher | stages/waitforinstall/stage.go:100-118 | a calm run of a first command to a Start that finds nothing running and launches beside the watcher's relaunch |
| VfkitRace.CreateMeetsLaunch | providers/vfkit/vfkit.go:113-132 | an orderly run of a first command to a Create that writes its phase into a Start's launch, after which Linux is spawned twice |
| SystemdEscape.EscapePath | providers/openshift/baker.go:380-400 | the byte loop computes the escaped name |
| SystemdEscape.EscapeRoundTrip | providers/openshift/baker.go:376-400 | decoding the name gives the path without its outer slashes, root included |
| SystemdEscape.EscapeCollides | providers/openshift/baker.go:376-400 | two paths share a name if and only if they differ in outer slashes only |
| SystemdEscape.EscapedNames | providers/openshift/baker.go:387-398 | only unit-name characters come out, at most four per byte |
| SystemdEscape.EscapeVerbatim | providers/openshift/baker.go:387-398 | escaping keeps a path as it is if and only if it is made of letters, digits and underscores |
| SystemdEscape.DocumentedExact | providers/openshift/baker.go:376-379 | code and comment agree if and only if the path has no inner dot |
| Ipv4.DeriveGateway | config/cluster.go:97-110 | the method computes the specified gateway or fails |
| Ipv4.ParseV4Exact | config/cluster.go:73-110 | a text is an IPv4 address if and only if it is one as printed: four numbers up to 255 without leading zeros |
| Ipv4.ParseCIDRExact | app/manager.go:307-312 | a text is an IPv4 network if and only if it is an address, a slash and digits that say 32 at most |
| Ipv4.GatewayIsFirstHost | config/cluster.go:97-110 | the gateway is the network address plus one without a carry, and lies in the network if and only if the prefix is at most 31 |
| Ipv4.GatewayParses | config/cluster.go:97-110 | it exists exactly for IPv4 CIDRs and prints as a valid address |
| Ipv4.MachineNetwork | config/cluster.go:83-94 | the derived machine network is the /24 around the address and its gateway is the .1 |
| Ipv4.SplitExact | app/manager.go:316-320 | splitting and joining are inverse and no part holds the separator |
| Defaults.NewCluster.ResolveMagicDNS | app/manager.go:248-259 | the field writes compute the resolved settings |
| Defaults.NewCluster.ApplyDefaults | app/manager.go:333-389 | the field writes compute the defaulted settings |
| Defaults.NewCluster.ValidateNew | app/manager.go:262-331 | the chain of checks accepts exactly the acceptable settings |
| Defaults.NewCluster.CheckServers | app/manager.go:316-320 | the loop over the comma-separated list accepts it if and only if every entry is blank or an address |
| Defaults.ResolveTwice | app/manager.go:248-259 | resolving twice changes the result exactly for "off" on NAT without a domain |
| Defaults.DefaultsTwice | app/manager.go:333-389 | applying the defaults is idempotent |
| Defaults.SizesExact | app/manager.go:347-374 | each count that was not given gets its default, a given one stays, unless ODF needs more |
| Defaults.AcceptedSizes | app/manager.go:324-374 | an accepted cluster with ODF has at least 8 CPUs, 24576 MiB and a disk of 12 GB; one without has no such disk |
| Defaults.NamesExact | app/manager.go:333-377 | the texts that were not given, the service and the domain |
| Defaults.AcceptedIsAddressed | stages/allocatenetwork/stage.go:21-53 | every accepted cluster leaves a successful allocation with a domain, an IP and a MAC, the domain built on that IP under magic DNS |
| CommandLine.AcceptedExact | app/manager.go:262-389 | through all defaults and all checks, settings are accepted if and only if what the user typed is sensible, stated on that alone |
| CommandLine.DomainExact | stages/allocatenetwork/stage.go:20-56 | the base domain of an accepted, allocated cluster: the given one, or its master's address under the service, or "local" |
| CommandLine.DomainOfFirstAddress | stages/allocatenetwork/stage.go:46-56 | allocated a second time, the domain names the new address if and only if that is the old one |
| Defaults.KeyfileExact | config/cluster.go:134-156 | rendering the keyfile of an accepted cluster fails if and only if its machine network is IPv6 and no gateway was given |
| Defaults.FallbackGatewaySame | app/manager.go:381-388 | the renderer's fallback gateway is the one the defaults store |
| Keyfiles.NATKeyfile | config/cluster.go:134-179 | the keyfile of an accepted NAT cluster holds the MAC and IP handed out, prefix 24, the network's .1 as gateway, and that as only name server |
| Keyfiles.BridgeKeyfile | config/cluster.go:134-179 | that of an accepted bridge cluster holds the MAC and IP given, the prefix of its machine network, the gateway given or else that network's first host, and the name servers given, entry by entry, or else the gateway alone |
| Dns.DnsManager.Upsert | providers/dns/manager.go:51-64 | the three records replace what those names held |
| Dns.DnsManager.Delete | providers/dns/manager.go:70-100 | exactly the A records at the three names go; "not found" is success |
| Dns.NamesIsolated | providers/dns/manager.go:75-79 | two clusters share a record name if and only if they are one FQDN, a trailing dot aside |
| Dns.ApplyElsewhere | providers/dns/manager.go:51-115 | a call changes no record at other names and none of another type |
| Dns.RunsAreIsolated | providers/dns/manager.go:51-115 | after any calls for any clusters, what stands at one cluster's names is what its own calls alone leave |
| Dns.UpsertThenDelete | providers/dns/manager.go:51-115 | for IPv4 nothing of the cluster remains and the rest is unchanged; for IPv6 its three AAAA records remain |
| Dns.UpsertResolves | providers/dns/manager.go:51-64 | after a successful call each of the three full names has one answer of the address's type: the address given |
| LibvirtXml.ParseReservations | providers/libvirt/libvirt.go:391-409 | the loop collects what the patterns match, line by line |
| LibvirtXml.EntryRead | providers/libvirt/libvirt.go:323-330 | a printed reservation reads back as the same host |
| LibvirtXml.RangeRead | providers/libvirt/libvirt.go:384-389 | the printed range reads back |
| LibvirtXml.InspectPrinted | providers/libvirt/libvirt.go:441-465 | any safe definition with any reservations in it is inspected as its range and exactly those reservations in order |
| LibvirtXml.FreshNetworkIsCurrent | app/natreset.go:66-67 | a network just built is the lifecycle's fresh network and is never judged outdated |
| LibvirtXml.LeasesOutsidePool | providers/libvirt/libvirt.go:441-465 | the range the printed definition leases from starts at .100, ends at .254, and holds no address of the masters' pool |
| CaBundle.Stage.AppendLocalCA | stages/applytlscerts/stage.go:188-244 | files after success, after a failing command, and when the CA is already there |
| CaBundle.BlocksAppended | stages/applytlscerts/stage.go:231-234 | the appended bundle decodes to the old blocks and the CA |
| CaBundle.CallsKeepOriginal | stages/applytlscerts/stage.go:182-244 | after any number of calls: the original blocks in order, each added CA once, the first original as backup for ever, and no backup if and only if every CA was in the original already |
| CaBundle.AppendIsFixedPoint | stages/applytlscerts/stage.go:182-187 | with one CA the bundle is a fixed point after the first success |
| DeviceAuth.Fetcher.StartDeviceAuth | providers/redhat/fetcher.go:64-95 | an absent interval is five seconds and an explicit zero is kept |
| DeviceAuth.Fetcher.PollToken | providers/redhat/fetcher.go:110-155 | outcome, poll times and grown interval of the loop on any script of answers |
| DeviceAuth.Fetcher.Wait | providers/redhat/fetcher.go:99-108 | without a started login it fails at once and polls nothing; otherwise its outcome and polls are the loop's |
| DeviceAuth.PollsAreSpaced | providers/redhat/fetcher.go:110-155 | the interval grows by five seconds per slow_down, polls are at least that far apart, and only pending answers within the lifetime are followed by a poll |
| DeviceAuth.AuthorizedByLastReply | providers/redhat/fetcher.go:116-129 | a token is returned if and only if the last poll was answered with it |
| DeviceAuth.OutcomeExact | providers/redhat/fetcher.go:116-150 | denied, expired, failed and cancelled, each exactly by the reply to the last poll and its time |
| DeviceAuth.PollsAreBounded | providers/redhat/fetcher.go:146-153 | with interval I of a second or more and lifetime E there are at most E / I + 2 polls |
| DeviceAuth.BoundIsTight | providers/redhat/fetcher.go:146-153 | that bound is reached for every I and E |
| Ignition.PublishPxeAssets.Apply | stages/publishpxeassets/stage.go:58-91 | the served file and the command line after success and after each fault |
| Ignition.PublishPxeAssets.MergeServed | providers/openshift/baker.go:321-361 | both appends on the served file |
| Ignition.AppendKeeps | stages/publishpxeassets/stage.go:112-123 | appending an entry keeps every other field, section and list |
| Ignition.PublishedKeepsSource | stages/publishpxeassets/stage.go:58-124 | the published ignition is the installer's with one keyfile behind its files, and one drop-in and one unit only when baking |
| Ignition.ServedAfterAttempts | stages/publishpxeassets/stage.go:58-91 | after any attempts, failed ones included, the served file is the old one if none got to write, else the installer's with one keyfile, and with one drop-in and unit if and only if the last writer got through its merge |
| Ignition.MountUnitNamesItsPath | providers/openshift/baker.go:260-280 | a mount unit's name decodes to its path, and different mounts never share one |
| Ignition.EmbeddedPilesUp | stages/embedignitioniso/stage.go:40-44 | every attempt adds another drop-in and unit to the installer's file |
| Ignition.EmbedRetryExact | stages/embedignitioniso/stage.go:40-44 | a retry embeds the same ignition if and only if the store is not baked |

## Left out

- Reservations.ReservationsConsistent: Linux only, vmnet has no reservations to track. Of the conditions in `Reservations.Clean`, where a process may end is exact; that commands start on what is on disk, meet no stale state.json, know the reservation they delete, and remove it when rolling back, is sufficient and not shown to be necessary.
- Resume.ResumeRefinesCleanRun: attempts are separate processes of one command line each; a retry inside one process is `Safety.ExhaustedRetry`. The magic domain, machine network and subnet fields are not part of the lifecycle's cluster.
- RoundTrip.CreateThenDelete: provider calls of the delete succeed; the shared network, once defined, stays. Processes that die, and failing saves, are in `Sessions.ProcessesRestore`.
- Sessions.CreateEndsAsCommand: a create whose process ends between a stage and its record is excluded; the next delete does not roll that stage back.
- Commands.Machine.RunAll: its processes run to their return; a death inside one is a part of its trace, for which `Sessions.dfy` has the lemmas. `start`, `stop` and `nat-network reset` are not among its commands.
- Stages.Context.AllocateApply: the machine CIDR, the subnet and the magic domain it also writes are not fields of the lifecycle's cluster; what they become is `Defaults.AfterAllocate`.
- DeviceAuth.Fetcher.Wait: ends with the token; fetching the pull secret with it is an HTTP call.
- Vfkit.TwoPhases: follows one VM between deletes; the network sidecar, the disk image and the console text behind a detected reboot are left out, and a Stop is a process that exits.
- LibvirtXml.InspectPrinted: reservations and names without angle brackets, quotes or equals signs; the layout libvirt gives its own dump may differ only in text without host elements.
- Manager.ClusterManager.StartCluster: booting the VMs and converging afterwards are one call each, which may fail and changes nothing modelled.
- Defaults.NewCluster.ValidateNew: answers accepted or not, without the message; which texts are IPv6 addresses and MACs are parameters, IPv4-mapped IPv6 text counts as IPv6.
- Inputs.NeedsAreMade: what a stage needs is read off its Apply, coarsely: files outside the cluster directory and caches count as made by the stage that fetches them.
- Retrace.UndoneAndRedone: on macOS from the boot media stage on, below which the kept command line makes the entry differ from a create's.
- Entries.AcceptedBegins: the lifecycle's cluster holds the addresses, the mode and the node count of the settings; a create that validation refuses for another setting is one whose checks before the first stage fail.
- Defaults.KeyfileExact: the keyfile is its five values, without the fixed text and the upper-casing of the MAC.
- DeviceAuth.Fetcher.PollToken: the overflow of a 64-bit duration and the HTTP transport; a script that ends is a cancelled context.
- Ignition.PublishPxeAssets.Apply: a source that is the JSON value null; JSON text is its parsed value.
- CaBundle.Stage.AppendLocalCA: base64 and PEM armour; the public-CA variant that strips the bundle.
- Manager.ClusterManager.PlanNATReset: stale leases, which are reported but never acted on, and the sorting of lists for display.
- One master per cluster, as validation demands; worker nodes are not modelled.
- The converge loop after start, status output and prompts.
- Preflight checks, the pull secret, version resolution and downloads: calls that may fail before anything changes.
- The bounded retry around openshift-install's wait (stages/waitforinstall/stage.go): its watchdog's Start is part of the vfkit protocol.
- The enumeration of release images for baking: a de-duplicating loop.
- Static manifests, CRI-O and MachineConfig text.
- Several commands at once, torn writes, and lock files.
