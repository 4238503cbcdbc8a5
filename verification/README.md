# Verified models of a switch's ring protection, cipher tool and support code

This project models, in Dafny, the parts of the repository whose behaviour is hardest to see from
the text, and proves what they keep.

* **Ethernet ring protection** (the `erpp` daemon). A ring has one master and any number of transit
  nodes. The master keeps its secondary port blocked while the ring is whole, sends HELLO packets
  round it, and opens the port when a link fails. `ErppNode` holds the reactions of one node,
  `ErppProtocol` the state of the daemon and every step that changes it, `ErppDaemon` the daemon as a
  class whose methods follow the C functions and are proved against those steps. `ErppSafety`,
  `ErppTimers` and `ErppMirror` prove what every run of one daemon keeps, and the class carries it as
  its invariant `Safe`. `ErppRing` puts the nodes on a ring of any size, with packets delivered in any
  order, and proves that forwarding ports never close a cycle. `ErppConvergence`, `ErppWaiting`,
  `ErppReports` and `ErppRound` prove, for every run, exactly when a ring has settled, which failures of
  a link reach the master, and when a HELLO round settles the ring; `ErppOvertaking` holds two runs in
  which a node is left behind. `ErppAvailable` proves when the ring stays connected after a failure.
  `ErppTimed` and `ErppRepair` couple the ring with the timers of its master, before and after a repair,
  `ErppRelay` follows a HELLO from switch to switch, and `ErppSending` says of every step exactly which
  packets leave the switch.
* **The triple-DES file tool** (`decrypt.c`). `Des` is the cipher on values, `DesBlocks` the block
  functions with their macros, `DesKey` the key expansion and the weak-key test, `DesStandard` the tables
  of FIPS 46-3 and the proof that the word operations compute them, `DesTool` the triple key and the file
  loop.
* **Support code.** `Words` and `Jhash` (the Jenkins hash), `LinkedList` and `HashList` (the intrusive
  lists on the heap), `BitArray`, and `FileSplit` (the root file system inside an image).

Main results: `ErppRing.RingSafety`, `ErppRound.HelloRoundSettles`, `ErppWaiting.SettledExactly`,
`ErppReports.ReportedExactly`, `ErppReports.WholeExactly`, `ErppAvailable.ConnectedExactly`,
`ErppSending.ReceiveSends`, `ErppSending.HellosLeave`, `ErppTimed.TimedRingSafe`,
`ErppRepair.RepairedRingSafe`, `ErppSafety.MasterSafety`,
`ErppSafety.BlockedPortOpensOnFlush`, `ErppMirror.NpdFollowsExactly`, `ErppTimers.HellosSent`,
`DesStandard.EncryptionIsStandard`, `DesTool.TripleIsEde`, `DesBlocks.TripleRoundTrip`, `DesTool.FileRoundTrip`, `DesKey.WeakPattern`,
`Jhash.MixIs`, `Jhash.HashWords`, `Jhash.KeysKeptApart`, `LinkedList.SpliceInit`, `FileSplit.Partition.UpdateRoot`,
`BitArray.ChangesThenTest`.

Some promises turned out to need a condition; each is proved as an if-and-only-if:

* A HELLO round settles a whole ring exactly when the master had failed or every transit node forwarded
  before the round (`ErppRound.HelloRoundSettles`). A COMPLETE master sends no second flush, so a node
  that handles its link-up event after the flush has passed keeps waiting. `ErppOvertaking.LeftBehind`
  is such a run on two nodes, and `ErppWaiting.SettledExactly` tells from the actions of any run which
  nodes wait.
* A link that fails under a COMPLETE master of a whole ring makes the master fail, without the fail
  timer, exactly when one of its ends is a transit node that forwards on both ports, or on its secondary
  port alone with that port on the link (`ErppReports.ReportedExactly`). `ErppOvertaking.MissedFailure`
  is a run in which the master stays COMPLETE with a link down. COMPLETE with nothing under way means
  that all links are up throughout a run exactly when no such failure is left unnoticed
  (`ErppReports.WholeExactly`).
* After a link of a settled ring has failed and nothing is under way, every other link forwards at both ends
  exactly when the ring is of level 1, or the link is the secondary one of the master, or the master has
  opened its secondary port and no report has reached it after that (`ErppAvailable.ConnectedExactly`): on
  another level the report closes the secondary port again. `ErppAvailable.CutOff` is a run on two nodes
  that leaves the master cut off exactly on a level other than 1.
* The fail timer of a settled ring never closes a cycle exactly when its counter is ahead of the HELLO
  counter and the fail timer is no shorter than the HELLO timer (`ErppTimed.TimedRingSafe`). After a
  repair the HELLO that ends the failure does not reload the counter: the master is declared failed once
  more exactly in the cases of `ErppTimers.RestoredRingExpires`, and a cycle can be closed exactly in
  those and when the timer runs out before the HELLO on a ring that forwards everywhere
  (`ErppRepair.RepairedRingSafe`).
* A LINK_DOWN packet that outlives the failure it reports closes a cycle exactly on a level 1 ring
  (`ErppRing.StaleLinkDown`).
* Transit rings stay consistent throughout a run exactly when no HELLO of the switch's own reaches one
  that does not wait in PRE_FORWARDING (`ErppSafety.TransitSafeExactly`): the number of LINK_DOWN is
  also that of NODE_FAIL.
* A run keeps NPD informed throughout exactly when every step is disciplined
  (`ErppMirror.NpdFollowsExactly`): an enable flag changes only on a ring that is configured with a
  port, an enabled ring gets other interfaces only together with another port state, and a domain is
  deleted only with its rings disabled. Other interfaces with the flag and the states unchanged are
  stored without a message, and NPD keeps the old ones (`ErppMirror.UnannouncedPorts`).

Where the code and its comments differ, the model follows the code: the comment above
`des3_ede_setkey` asks to reject equal last keys always, the code does so only on request
(`DesTool.Context.SetKey`), and `DesTool.TripleOfEqualKeys` says what such a key then computes.

Status numbers are the integers of `src/include/erpp/erpp_dbus.h`, where several names share a value
(LINK_UP and NODE_COMPLETE, LINK_DOWN and NODE_FAIL, PRE_FORWARDING and ERPP_LINK_FAIL, and the event
LINK_DOWN sent where a packet type is expected is a HELLO). The model keeps the collisions.

## Model

| member | source | states |
|---|---|---|
| ErppNode.LinkUpLeavesBlockedPort | src/erpp/src/erpp_event.c:85-171 | after a link-up event the handling node has a blocked port, in every role and state; a master then has exactly one, and no other role opens a port |
| ErppNode.LinkReactions | src/erpp/src/erpp_event.c:85-289 | for every role and port state, what a link event leaves open and what it sends: the lost port is blocked; a master that loses its forwarding primary port opens the other, and one that regains a link with the other port blocked opens the port that came up; no other role opens a port; one packet leaves by the other port, and its type follows role and ports |
| ErppNode.PacketTable | src/erpp/src/erpp_packet.c:40-232 | what a packet does to a node, field by field: status, both ports, whether it passes on, and that a master that ends or notes a failure flushes by both its ports |
| ErppNode.OwnHelloOnTransit | src/erpp/src/erpp_packet.c:56-82 | its own HELLO leaves a transit node consistent if and only if it waits in PRE_FORWARDING |
| ErppDaemon.LinkUpAt | src/erpp/src/erpp_event.c:91-163 | the branches of the link-up handler compute `LinkUpNode`; a master ends with one forwarding port, the one that came up if the other was blocked and the primary one if the other forwarded; another role opens nothing |
| ErppDaemon.LinkDownAt | src/erpp/src/erpp_event.c:193-277 | the branches of the link-down handler compute `LinkDownNode`; the lost port is blocked, a master that loses its forwarding primary port opens the other one, and the packets and the recorded ring are those that role and ports call for |
| ErppDaemon.DomainTimer | src/erpp/src/erpp_timer.c:26-82 | the loop over the rings of a domain is `TickRings`, with the counters shared by the rings |
| ErppDaemon.HelloProcess | src/erpp/src/erpp_packet.c:40-85 | the HELLO handler does what `Handle` says for the ring that the packet names, and sends what it says |
| ErppDaemon.CompleteFlushProcess | src/erpp/src/erpp_packet.c:87-120 | the same for COMPLETE_FLUSH: another node's flush opens both ports of a waiting ring and passes on |
| ErppDaemon.LinkDownProcess | src/erpp/src/erpp_packet.c:130-168 | the same for LINK_DOWN: the master fails, opens its secondary port on level 1, and flushes; others pass it on |
| ErppDaemon.FaultProcess | src/erpp/src/erpp_packet.c:202-232 | the same for FAULT |
| ErppDaemon.PacketHandler | src/erpp/src/erpp_packet.c:234-284 | the dispatch on the packet type is `Handle`, unknown types included |
| ErppRelay.HandleCounts | src/erpp/src/erpp_packet.c:40-232 | which packets reload the fail, hello and fault counters, raise the flush flag and record the ring, and that timers, instance and other counters stay |
| ErppMirror.UpdateTells | src/erpp/src/erpp_dbus.c:163-221 | a stored entry leaves NPD with the flag and the ports, interface and state, of each of its rings, if a flag that changes belongs to a configured ring with a port and an enabled ring that gets other interfaces gets another port state too |
| ErppMirror.UpdateSays | src/erpp/src/erpp_dbus.c:108-221 | an update adds, on the active board only, exactly one message for each configured ring whose flag changed with a port, or that is enabled and changed a port state; each carries the stored ports, flag and instance, and the flush bit exactly if this update raised the flag |
| ErppMirror.UnannouncedPorts | src/erpp/src/erpp_dbus.c:163-221 | other interfaces on an enabled ring with the port states unchanged leave NPD with the old ones |
| ErppDaemon.Daemon.constructor | src/erpp/src/erpp_dbus.c:223-287 | the daemon starts in an initial state: no domain, nothing sent, and its invariant holds |
| ErppDaemon.Daemon.DomainUpdate | src/erpp/src/erpp_dbus.c:56-59 | storing an entry replaces it in the table; on the active board NPD gets one message for each ring that calls for one, in order, with the ports, the instance and the enable flag of the stored entry and the flush bit exactly if this update raised the flag |
| ErppDaemon.Daemon.DomainGetNext | src/erpp/src/erpp_dbus.c:66-80 | the next configured domain after a number, with none configured in between |
| ErppDaemon.Daemon.LinkEventAt | src/erpp/src/erpp_event.c:85-171 | a link event at one ring is `LinkRing` of the model |
| ErppDaemon.Daemon.LinkEventIn | src/erpp/src/erpp_event.c:85-174 | the rings of a domain are tried in order, all but the last |
| ErppDaemon.Daemon.LinkEvent | src/erpp/src/erpp_event.c:309-352 | a link event changes the daemon exactly as the step `LinkUp` or `LinkDown` of the model and keeps the invariant; what leaves is what each enabled ring with that interface emits on a link-down, and nothing on a link-up or while the service is off |
| ErppDaemon.Daemon.LinkEventAll | src/erpp/src/erpp_event.c:76-176 | the walk over the domains covers all of them, each once |
| ErppDaemon.Daemon.Timer | src/erpp/src/erpp_timer.c:84-116 | a second changes the daemon exactly as the step `Tick` and keeps the invariant; what leaves is what each domain sends in its second, in the order of the domains, and nothing while the service is off |
| ErppDaemon.Daemon.PacketReceive | src/erpp/src/erpp_packet.c:286-326 | a packet changes the daemon exactly as the step `Receive`, or nothing when it is dropped, as the return value says; what leaves is the packet by the other port, or the packets of the node reaction; the invariant holds |
| ErppDaemon.Daemon.RingConfigure | src/erpp/src/erpp_dbus.c:374-437 | configuring a ring keeps the invariant if and only if the ring is disabled, keeps its interfaces, or changes a port state; on the standby board always |
| ErppDaemon.Daemon.RingEnable | src/erpp/src/erpp_dbus.c:438-467 | switching a ring keeps the invariant if and only if the flag stays or the ring is configured with a port; on the standby board always |
| ErppDaemon.Daemon.TimerConfigure | src/erpp/src/erpp_dbus.c:490-524 | setting the timers of a domain keeps the invariant if and only if both are at least one |
| ErppDaemon.Daemon.InstanceConfigure | src/erpp/src/erpp_dbus.c:349-372 | setting the instance keeps the invariant |
| ErppDaemon.Daemon.ServiceProcess | src/erpp/src/erpp_dbus.c:469-488 | switching the service keeps the invariant |
| ErppDaemon.Daemon.DomainProcess | src/erpp/src/erpp_dbus.c:288-322 | creating a domain keeps the invariant; deleting one keeps it if and only if its rings are disabled, on the standby board always |
| ErppDaemon.TimersSet | src/erpp/src/erpp_dbus.c:490-524 | both timers, the fault timer and all counters are the ones given; the condition of `TimedRingSafe` then holds if and only if the hello timer is shorter than the fail timer |
| ErppDaemon.RingConfigured | src/erpp/src/erpp_dbus.c:374-437 | the ring has the role, level and interfaces given; a master starts COMPLETE with its primary port open and its secondary one blocked, other roles LINK_UP with both open; flag, other rings and other domains stay |
| ErppDaemon.DomainCreated | src/erpp/src/erpp_dbus.c:288-322 | a new domain has no ring, a HELLO timer of three and a fail timer of nine; a known or out-of-range number changes nothing |
| ErppDaemon.SettingStored | src/erpp/src/erpp_dbus.c:288-488 | enabling, the instance, the service and deletion store what they are given and change nothing else |
| ErppSafety.LinkRingsAt | src/erpp/src/erpp_event.c:85-171 | the loop over the rings changes each ring but the last by its own reaction, once, and no other |
| ErppSafety.LinkDomainsAt | src/erpp/src/erpp_event.c:76-176 | a link event changes every ring of every domain, but the last of each, by its own reaction |
| ErppSafety.TickRingsAt | src/erpp/src/erpp_timer.c:26-82 | a second leaves each ring alone, expires an enabled master, or marks an enabled assistant edge as failed |
| ErppSafety.StepMoves | src/erpp/src/erpp_packet.c:40-232 | every step leaves every ring as it is or moves it in one of the listed ways |
| ErppSafety.MasterSafety | src/erpp/src/erpp_packet.c:40-168 | in every run of configuration, ticks, link events and arbitrary packets, a configured master ring is COMPLETE or FAIL and forwards on both ports only in FAIL |
| ErppSafety.TransitSafety | src/erpp/src/erpp_packet.c:92-103 | in every run in which a HELLO of its own reaches a transit ring at most in PRE_FORWARDING, a transit ring is LINK_UP exactly when both ports forward |
| ErppSafety.TransitSafeExactly | src/erpp/src/erpp_packet.c:56-82 | over all runs: transit rings are consistent at every step if and only if no such HELLO reaches one in another state |
| ErppSafety.SelfHelloBreaks | src/erpp/src/erpp_packet.c:56-82 | at one step, such a HELLO keeps the invariant if and only if the ring waits in PRE_FORWARDING |
| ErppSafety.WaitsSinceLinkUp | src/erpp/src/erpp_event.c:91-163 | a transit ring waits in PRE_FORWARDING only since a link-up event at one of its own ports, and has waited at every step since |
| ErppSafety.BlockedPortOpensOnFlush | src/erpp/src/erpp_packet.c:87-120 | without reconfiguration a blocked transit port opens only on another node's COMPLETE_FLUSH for that ring, received after a link-up event made it wait |
| ErppTimers.CountersBounded | src/erpp/src/erpp_timer.c:26-82 | in every run that configures only positive timers, no counter underflows or passes its timer |
| ErppTimers.HellosSent | src/erpp/src/erpp_timer.c:34-53 | m enabled masters send, in t seconds from counter c, no HELLO while m*t <= c and 1 + (m*t - c - 1) / helloTimer after that |
| ErppSending.HellosLeave | src/erpp/src/erpp_timer.c:26-116 | over t seconds of the daemon with the service on, that many HELLOs about each of its domains leave the switch, whatever the other domains send |
| ErppSending.NothingLeaves | src/erpp/src/erpp_timer.c:84-116 | with the service off, seconds change nothing and nothing leaves |
| ErppSending.TickSends | src/erpp/src/erpp_timer.c:84-116 | a second of the daemon is a second of each of its domains: what leaves is what they send, in the order of their numbers, and each entry becomes what its second makes of it |
| ErppSending.RingSecond | src/erpp/src/erpp_timer.c:26-82 | what a ring sends in a second, by which port and about which ring, for each role, and how it counts |
| ErppSending.ReceiveSends | src/erpp/src/erpp_packet.c:286-326 | a packet for an enabled ring of a known domain changes that domain alone and makes leave the packet by the other port, or the packets of the node reaction; any other packet changes and sends nothing |
| ErppSending.LinkSends | src/erpp/src/erpp_event.c:187-352 | a link-up sends nothing; a link-down sends, over all domains and all rings but the last, exactly what each enabled ring with that interface emits |
| ErppSending.ConfigurationSends | src/erpp/src/erpp_dbus.c:288-524 | no configuration step sends a packet |
| ErppTimers.SilentRingFails | src/erpp/src/erpp_timer.c:42-53 | a sole master that hears nothing keeps its state for failCount seconds and fails in exactly the next one |
| ErppTimed.TimedRingSafe | src/erpp/src/erpp_timer.c:26-82 | a settled ring of any size, driven by the timer and packet handlers of its master with each HELLO home within its second, is never closed to a cycle if and only if failCount is above helloCount and the fail timer is no shorter than the hello timer |
| ErppTimed.StaysCoupled | src/erpp/src/erpp_packet.c:40-168 | under every tick and packet the node on the ring and the ring in the domain table stay the same |
| ErppRepair.RepairedRingSafe | src/erpp/src/erpp_timer.c:26-82 | a ring of any size that is whole again under a failed master, driven by the master's timer and packet handlers with each HELLO home within its second, is never closed to a cycle if and only if the fail counter is not too low at the next HELLO, and a transit node waits or failCount is above helloCount |
| ErppRepair.Drain | src/erpp/src/erpp_packet.c:87-120 | the flushes of a COMPLETE master can always be delivered to the end, which leaves the ring settled and the counters alone |
| ErppTimers.RestoredRingExpires | src/erpp/src/erpp_packet.c:56-82 | from every state of a failed master on a ring that is whole again, it is declared failed once more if and only if the fail counter, at the second of the next HELLO, is above zero and at most the hello timer, or the fail timer is shorter than the hello timer (no longer than it, when the counter is just zero) |
| ErppMirror.MirrorStep | src/erpp/src/erpp_dbus.c:163-221 | on the active board, with enabled rings configured, a step keeps NPD's last message right, interfaces included, if and only if it is disciplined: a flag changes only on a configured ring with a port, an enabled ring gets other interfaces only with another port state, a domain goes only with its rings disabled |
| ErppMirror.NpdFollowsRing | src/erpp/src/erpp_dbus.c:108-134 | after every disciplined run the last message about a ring carries its enable flag and, when enabled, the interface and the state of both its ports |
| ErppMirror.NpdFollowsExactly | src/erpp/src/erpp_dbus.c:108-221 | over all runs: NPD is right at every step if and only if every step is disciplined |
| ErppRelay.HandleRefinesNode | src/erpp/src/erpp_packet.c:234-284 | a packet changes only the ring it names, as the node reaction says; what leaves is the packet by the other port, or packets about that ring with the domain's timers and this switch's address |
| ErppRelay.HelloPassesAll | src/erpp/src/erpp_packet.c:40-55 | a HELLO passes any number of foreign switches, each once, by the port it did not arrive on, changes none of them and keeps domain, ring, type and address |
| ErppRelay.MasterHelloReturns | src/erpp/src/erpp_packet.c:458-501 | the HELLO of a master's timer comes back over any number of switches as one the master takes for its own |
| ErppRing.NoticeFacts | src/erpp/src/erpp_event.c:85-289 | what a link event may do to a node: a master keeps its status and a blocked port, others only close ports |
| ErppRing.PacketFacts | src/erpp/src/erpp_packet.c:40-168 | what a packet may do to a node: a master opens its second port only on LINK_DOWN, a transit node opens only on another's COMPLETE_FLUSH |
| ErppRing.StepInv | src/erpp/src/erpp_packet.c:40-168 | every enabled step of the ring, in any order of deliveries, keeps the invariant |
| ErppRing.RingSafety | src/erpp/src/erpp_event.c:85-171 | in no state of any run, on a ring of any size, do forwarding ports close a cycle |
| ErppRing.StaleLinkDown | src/erpp/src/erpp_packet.c:130-168 | on a settled ring a late LINK_DOWN closes a cycle if and only if the ring is of level 1 |
| ErppConvergence.StepLoose | src/erpp/src/erpp_packet.c:40-168 | every step of every run keeps what is known of nodes, events and packets: consistent transit nodes, LINK_DOWN only with a cause, flushes only of the master |
| ErppConvergence.StepConv | src/erpp/src/erpp_packet.c:40-168 | as long as no HELLO ends a failure before its link events are handled, a COMPLETE master has a flush on the way to every waiting node, or a report of the broken link on the way to itself |
| ErppConvergence.CalmMeansSettled | src/erpp/src/erpp_packet.c:56-82 | in such runs NODE_COMPLETE with nothing under way means that all links are up and every transit node is LINK_UP and forwards on both ports |
| ErppWaiting.WaitsExactly | src/erpp/src/erpp_packet.c:87-120 | in every run, on a whole ring with nothing under way, a transit node has a blocked port if and only if it handled a link-up event and no flush has reached it since |
| ErppWaiting.SettledExactly | src/erpp/src/erpp_packet.c:56-120 | in every run, a whole ring with nothing under way is settled if and only if its master is COMPLETE and no node waits |
| ErppReports.ReportedExactly | src/erpp/src/erpp_event.c:193-277 | in every run, a link that fails on a whole ring under a COMPLETE master makes it FAIL, once nothing is under way and without the fail timer, if and only if an end of the link is a transit node that forwards on both ports or on its secondary port alone, with that port on the link; otherwise it stays COMPLETE |
| ErppReports.WholeExactly | src/erpp/src/erpp_event.c:187-289 | over all runs: NODE_COMPLETE with nothing under way always means that all links are up, if and only if no failure without such an end is left unnoticed until nothing is under way |
| ErppReports.CompleteMeansSettled | src/erpp/src/erpp_packet.c:56-120 | in every run, under a COMPLETE master with nothing under way, the ring is settled if and only if all links are up and no node waits; all links are up if every link that failed under a COMPLETE master had a reporting end |
| ErppAvailable.ConnectedExactly | src/erpp/src/erpp_event.c:193-277 | in every run, once a link of a settled ring has failed and nothing is under way, the master is FAIL and every other link forwards at both ends if and only if the ring is of level 1, the link is the master's secondary one, or the master opened its secondary port, by handling the loss or by its fail timer, after the last report reached it |
| ErppAvailable.CutOff | src/erpp/src/erpp_packet.c:130-168 | a run on two nodes in which the report reaches the master after it has opened its secondary port: the ring ends connected if and only if it is of level 1 |
| ErppOvertaking.MissedFailure | src/erpp/src/erpp_event.c:218-240 | a run on two nodes, of any level, that ends with nothing under way, a COMPLETE master and a link down |
| ErppOvertaking.LeftBehind | src/erpp/src/erpp_packet.c:87-120 | a run on two nodes, of any level, that ends whole and quiet with a COMPLETE master and a waiting node |
| ErppConvergence.FlushOvertakesLinkUp | src/erpp/src/erpp_packet.c:92-103 | a flush that overtakes the link-up event leaves the node waiting; in the other order it opens it |
| ErppRound.DeliveryProgress | src/erpp/src/erpp_packet.c:234-284 | every delivery, on any links, leaves strictly less work under way |
| ErppRound.DeliveriesEnd | src/erpp/src/erpp_packet.c:234-284 | a stretch of deliveries is no longer than the work at its start |
| ErppRound.HelloRoundSettles | src/erpp/src/erpp_packet.c:56-120 | in every run, from every quiet state with all links up, one HELLO round ends after at most three deliveries per node, in any order, and leaves only the master's secondary port blocked if and only if the master had failed or every transit node forwarded |
| Des.RotateBack | src/man/decrypt/decrypt.c:18-19 | the two rotations undo each other for every count the macros use |
| Des.LoadStore | src/man/decrypt/decrypt.c:794-814 | writing a block and reading it gives the block |
| Des.StoreLoad | src/man/decrypt/decrypt.c:794-814 | reading eight bytes and writing them gives the bytes |
| Des.FinalUndoesInitial | src/man/decrypt/decrypt.c:518-582 | FP undoes IP |
| Des.InitialUndoesFinal | src/man/decrypt/decrypt.c:518-582 | IP undoes FP, so the inner pairs of three passes cancel |
| DesStandard.InitialIsStandard | src/man/decrypt/decrypt.c:518-549 | on the bytes of a block, IP is the initial permutation of FIPS 46-3, with each half turned by one place |
| Des.RoundsUndone | src/man/decrypt/decrypt.c:584-595 | any number of rounds, run again with the subkeys reversed and the halves exchanged, is undone, whatever the S-boxes hold |
| Des.CryptUndone | src/man/decrypt/decrypt.c:794-836 | DES with the reversed schedule undoes DES |
| Des.TripleIsThreePasses | src/man/decrypt/decrypt.c:876-915 | the fused 48 rounds with one IP and one FP are three DES passes |
| Des.TripleUndone | src/man/decrypt/decrypt.c:917-956 | the fused cipher with the schedules reversed and in reverse order is its inverse |
| Des.TripleCollapses | src/man/decrypt/decrypt.c:838-850 | two neighbouring equal keys reduce the fused cipher to one DES pass |
| DesBlocks.Permute | src/man/decrypt/decrypt.c:518-549 | the statements of IP compute the permutation |
| DesBlocks.PermuteBack | src/man/decrypt/decrypt.c:551-582 | the statements of FP compute its inverse |
| DesBlocks.RoundMacro | src/man/decrypt/decrypt.c:584-595 | the ROUND macro, which loads two key words, moves the key pointer and looks up eight boxes, is the Feistel round that `ScrambleIsStandard` identifies |
| DesStandard.ScrambleIsStandard | src/man/decrypt/decrypt.c:584-595 | the round function is the sum of the eight boxes, box j read at six cyclically consecutive bits from bit 4 * (8 - j) of the half crossed with the first key word for even j and the second for odd j: the expansion E of FIPS 46-3 |
| DesBlocks.DoubleRounds | src/man/decrypt/decrypt.c:805-808 | the unrolled rounds walk the expanded key up or down two words at a time |
| DesBlocks.DownIsReversed | src/man/decrypt/decrypt.c:816-836 | walking the expanded key down gives the subkeys of walking up, reversed |
| DesBlocks.Encrypt | src/man/decrypt/decrypt.c:794-814 | the block function is DES with the expanded key's sixteen subkeys |
| DesBlocks.Decrypt | src/man/decrypt/decrypt.c:816-836 | the block function is DES with them reversed |
| DesBlocks.Encrypt3 | src/man/decrypt/decrypt.c:876-915 | the block function is the fused cipher with the three schedules of the expanded key |
| DesBlocks.Decrypt3 | src/man/decrypt/decrypt.c:917-956 | the same from the last word down |
| DesBlocks.TripleRoundTrip | src/man/decrypt/decrypt.c:876-956 | triple encryption and decryption undo each other on every block, for every 96-word key and all S-box contents |
| DesKey.TurnRotates | src/man/decrypt/decrypt.c:67-100 | one `rs` step on the four groups rotates the 28-bit register by one |
| DesKey.FullCircle | src/man/decrypt/decrypt.c:625-699 | 28 turns give the register back |
| DesKey.ExpandHalf | src/man/decrypt/decrypt.c:636-651 | the unrolled listing computes the sixteen half keys of the register |
| DesKey.FixupAll | src/man/decrypt/decrypt.c:684-695 | the last loop exchanges and rotates each pair in place |
| DesKey.ExpandEncrypt | src/man/decrypt/decrypt.c:625-699 | the 32 words hold the schedule of the key, nothing else changes, and the result is zero if and only if the key is weak |
| DesKey.ExpandDecrypt | src/man/decrypt/decrypt.c:707-772 | the 32 words hold exactly the reversed schedule |
| DesStandard.Choice1IsStandard | src/man/decrypt/decrypt.c:631-634 | with the source's table, the two registers hold the bits of permuted choice 1 of FIPS 46-3: the first half is D, the second C |
| DesStandard.TurnsAreShifts | src/man/decrypt/decrypt.c:636-651 | turning a register 28 - s times is s left shifts of the standard |
| DesStandard.SubkeyIsStandard | src/man/decrypt/decrypt.c:625-699 | the bits of subkey n that box j takes are row j of permuted choice 2 of the registers shifted 1, 2, 4, ..., 28 places, for every key, round and box |
| DesStandard.EncryptionIsStandard | src/man/decrypt/decrypt.c:794-814 | DES of the tool is that of FIPS 46-3 for every block, key and S-box contents: initial permutation, sixteen rounds of the standard's cipher function under its subkeys, exchange, inverse permutation |
| DesKey.AlternatingRegister | src/man/decrypt/decrypt.c:613-624 | the test on the four groups holds if and only if the register is all zeros, all ones or one of the two alternating patterns of FIPS 74 |
| DesKey.WeakPattern | src/man/decrypt/decrypt.c:613-699 | a weak key's subkeys are Y, seven X, seven Y, X |
| DesKey.WeakKeysUndo | src/man/decrypt/decrypt.c:613-699 | weak keys with X and Y exchanged undo each other |
| DesKey.WeakSelfInverse | src/man/decrypt/decrypt.c:613-699 | with X = Y, DES is its own inverse |
| DesTool.Context.SetKey | src/man/decrypt/decrypt.c:851-874 | a triple key is refused if and only if its first two keys are equal, or its last two are and the caller asked; a refusal sets the result flag and leaves the expanded key alone |
| DesTool.TripleIsEde | src/man/decrypt/decrypt.c:865-915 | with an accepted key the fused cipher is DES under k3 of DES decryption under k2 of DES under k1 |
| DesTool.TripleOfEqualKeys | src/man/decrypt/decrypt.c:838-850 | k1 = k2 makes it DES under k3, and k2 = k3 DES under k1 |
| DesTool.CryptFile | src/man/decrypt/decrypt.c:1014-1053 | the file loop writes every block of the zero-padded file, 8 * (len / 8 + 1) bytes, one block more than a file of whole blocks has |
| DesTool.BlockAt | src/man/decrypt/decrypt.c:1014-1053 | block i of the result is block i of the file crypted by itself |
| DesTool.FileRoundTrip | src/man/decrypt/decrypt.c:1014-1053 | decrypting an encrypted file of any length gives the file, zeros up to the padded length, and one block that is the decryption of zeros |
| Jhash.JhashMix | src/include/npd/jhash.h:24-35 | the macro's 27 statements are the mixing step |
| Jhash.MixIsPermutation | src/include/npd/jhash.h:24-35 | mixing permutes the 96-bit states: it has an inverse on both sides |
| Jhash.MixIs | src/include/npd/jhash.h:24-35 | the mixing step in arithmetic: nine times a word less the two others, crossed bit by bit with one of them divided or multiplied by a power of two, with the exponents 13, 8, 13, 12, 16, 5, 3, 10, 15 |
| Jhash.BlockIs | src/include/npd/jhash.h:56-66 | a block adds its three little-endian numbers to the three words, modulo 2^32, and mixes |
| Jhash.TailIs | src/include/npd/jhash.h:68-82 | the last bytes do the same, the third number shifted by a byte in favour of the length |
| Jhash.ShortKey | src/include/npd/jhash.h:47-85 | the final state of a key of less than twelve bytes, in one formula |
| Jhash.TailThird | src/include/npd/jhash.h:68-71 | the fall-through cases 11 to 9 add the zero-padded bytes above the length byte |
| Jhash.TailWord | src/include/npd/jhash.h:72-79 | the fall-through cases of four bytes add their zero-padded word |
| Jhash.HashBytes | src/include/npd/jhash.h:47-85 | the hash of bytes is the third word of the final state of the key |
| Jhash.HashWords | src/include/npd/jhash.h:90-116 | the hash of words is that of their little-endian bytes, for every initial value |
| Jhash.KeysKeptApart | src/include/npd/jhash.h:56-82 | keys of one length that differ inside one block, or only in the tail, end in different states |
| Jhash.SeedsKeptApart | src/include/npd/jhash.h:52-54 | different initial values end in different states for every key |
| LinkedList.Rotate | src/include/npd/npd_list.h:36-38 | a circle is a circle from each of its nodes, so any node can serve as head |
| LinkedList.CircleUnique | src/include/npd/npd_list.h:36-38 | the pointers determine the sequence of nodes |
| LinkedList.InitListHead | src/include/npd/npd_list.h:45-49 | a head alone is an empty list |
| LinkedList.AddBetween | src/include/npd/npd_list.h:57-65 | the new node stands between the two neighbours, and next and prev are inverse all round |
| LinkedList.Add | src/include/npd/npd_list.h:75-78 | the list is the new node, then the old list |
| LinkedList.AddTail | src/include/npd/npd_list.h:88-91 | the list is the old list, then the new node |
| LinkedList.Unlink | src/include/npd/npd_list.h:102-106 | the circle without the entry is a circle; an entry alone is left as it is |
| LinkedList.Del | src/include/npd/npd_list.h:114-119 | the entry is gone from the list and poisoned |
| LinkedList.DelInit | src/include/npd/npd_list.h:152-156 | the entry is gone from the list and is an empty list |
| LinkedList.Replace | src/include/npd/npd_list.h:130-137 | the new node takes the place of the old; replacing an empty head makes the new head empty |
| LinkedList.ReplaceInit | src/include/npd/npd_list.h:139-144 | the same, and the old node is an empty list |
| LinkedList.Move | src/include/npd/npd_list.h:163-167 | within a list the entry becomes the first, wherever it was |
| LinkedList.MoveTail | src/include/npd/npd_list.h:174-179 | within a list the entry becomes the last, wherever it was |
| LinkedList.MoveAcross | src/include/npd/npd_list.h:163-167 | the entry leaves its list and is first in another, also when it was alone |
| LinkedList.MoveTailAcross | src/include/npd/npd_list.h:174-179 | the entry leaves its list and is last in another |
| LinkedList.IsLast | src/include/npd/npd_list.h:186-190 | true exactly for the last entry |
| LinkedList.Empty | src/include/npd/npd_list.h:196-199 | true exactly for an empty list |
| LinkedList.EmptyCareful | src/include/npd/npd_list.h:214-218 | the same from both pointers |
| LinkedList.ForEach | src/include/npd/npd_list.h:277-279 | the loop meets the entries in order, each once, and ends |
| LinkedList.SpliceIn | src/include/npd/npd_list.h:220-232 | two circles become one, the entries of the first in front |
| LinkedList.Splice | src/include/npd/npd_list.h:239-243 | the same, and nothing for an empty list; the first head keeps its pointers |
| LinkedList.SpliceInit | src/include/npd/npd_list.h:252-259 | the second list holds the first's entries, then its own; the first is empty |
| HashList.SlotHoldsNode | src/include/npd/npd_list.h:440-446 | the slot that a linked node's pprev names points to that node |
| HashList.AddHead | src/include/npd/npd_list.h:491-499 | the list is the new node, then the old list, and every pprev is right |
| HashList.AddBefore | src/include/npd/npd_list.h:504-511 | the new node stands before the given one, also at the head |
| HashList.AddAfter | src/include/npd/npd_list.h:513-522 | the new node stands after the given one, also at the end |
| HashList.Unlink | src/include/npd/npd_list.h:467-474 | the list without the node, its successor's pprev corrected |
| HashList.Del | src/include/npd/npd_list.h:476-481 | the same, and the node is poisoned |
| HashList.DelInit | src/include/npd/npd_list.h:483-489 | the same, and the node is unhashed; a node on no list changes nothing |
| HashList.Empty | src/include/npd/npd_list.h:462-465 | true exactly for an empty list |
| HashList.ForEach | src/include/npd/npd_list.h:526-528 | the loop meets the nodes in order, each once, and ends |
| BitArray.TestBit | src/include/lib/npd_bitarray.h:272-275 | one exactly for the members of the set that the array stands for |
| BitArray.SetBit | src/include/lib/npd_bitarray.h:277-289 | inserts the number and changes no other |
| BitArray.ClearBit | src/include/lib/npd_bitarray.h:291-303 | removes the number and changes no other |
| BitArray.ChangeBit | src/include/lib/npd_bitarray.h:305-317 | toggles the number and changes no other |
| BitArray.ChangesThenTest | src/include/lib/npd_bitarray.h:272-317 | after any sequence of changes every test agrees with the set built by insert, remove and toggle |
| BitArray.Zero | src/include/lib/npd_bitarray.h:128-136 | no number of the words it covers is left, at least one word, and later words keep theirs |
| BitArray.Copy | src/include/lib/npd_bitarray.h:148-157 | the words it covers hold the numbers of the source, later words keep theirs |
| BitArray.Fill | src/include/lib/npd_bitarray.h:138-146 | exactly the numbers below nbits, with the padding of the last word clear |
| FileSplit.EitherOrder | src/man/file_split/file_split.c:192-198 | on hosts of either byte order the test accepts exactly the magic number's bytes in one of the two orders |
| FileSplit.MagicIs | src/man/file_split/file_split.c:667-711 | a block counts if and only if the image has the bytes "hsqs" or "sqsh" at that multiple of 65536 |
| FileSplit.CheckSqImage | src/man/file_split/file_split.c:667-711 | ends for every image with the least block that starts with the magic number, and fails, leaving the caller's block number, if and only if there is none |
| FileSplit.TimeOrder | src/man/file_split/file_split.c:369-369 | an image is older than another if and only if bytes 8 to 11 of its header come first, the first difference deciding; its time is zero if and only if they are |
| FileSplit.VersionIs | src/man/file_split/file_split.c:368-368 | the version of an image is v if and only if v, free of zero bytes, stands in the header name behind its first two bytes and ends with a zero byte or with the name; it is empty if the name is shorter than two |
| FileSplit.GetImageFileName | src/man/file_split/file_split.c:201-262 | picks the newest file, in the order of `TimeOrder`, of the version, as `VersionIs` reads it, that has a header, a time and a root file system, the first of equals, with its least magic block; fails if and only if there is none |
| FileSplit.Partition.CheckImageRoot | src/man/file_split/file_split.c:442-542 | one if and only if the root file equals the image from the block on; a root file that differs is deleted |
| FileSplit.Partition.GetSqImage | src/man/file_split/file_split.c:589-665 | if and only if the image shows its header, the root file becomes exactly the image from the block on; extracted from itself it becomes empty |
| FileSplit.Partition.UpdateRoot | src/man/file_split/file_split.c:286-322 | locates, compares and extracts in the directory that also holds the root file: it becomes the newest image of the version from its least magic block on, one is returned if it already was; a root file that is itself the newest image is deleted; without an image nothing changes |
| FileSplit.RootNoCandidate | src/man/file_split/file_split.c:201-262 | an extracted root file is never picked as an image |
| FileSplit.Partition.UpdateTwice | src/man/file_split/file_split.c:286-322 | after an update that succeeds, a second one scans the root file just written, picks the same image, finds the file right and changes nothing |

## Left out

- RingSafety: link events come one at a time, each after the packets of the last have been delivered, and the fail timer runs out only while a link is down; what happens otherwise is stated by TimedRingSafe, RepairedRingSafe and StaleLinkDown.
- ReportedExactly: the packet that a transit node sends on the loss of a blocked secondary port, without first recording the ring (erpp_event.c:212-215), carries the ring recorded before; the ring model puts it on this ring. It is a HELLO by its number and reports nothing.
- CalmMeansSettled: speaks of runs in which no HELLO ends a failure ahead of its link events; SettledExactly, ReportedExactly, WholeExactly, CompleteMeansSettled and HelloRoundSettles speak of every run.
- TimedRingSafe: a HELLO is back before the next second, here and in RepairedRingSafe; a ring that takes longer is not modelled.
- HelloRoundSettles: the rings have master and transit nodes only; the liveness of edge and assistant edge nodes is not stated.
- LinkRingsAt: the last ring of a domain is never visited by link events, as in the source.
- PacketReceive: packets that name ring 0 of a domain in the table, and an edge hello that names its enabled last ring, make the source read outside its array and are not modelled.
- RingConfigure: the source does not check the ring number of a configuration request; numbers outside the array are not modelled.
- CountersBounded: the counters are integers; the wrap-around of 32-bit counters that a zero timer would cause is not modelled.
- KeysKeptApart: says nothing about the 32-bit hash itself, which cannot be injective.
- CheckSqImage: the byte offset is an integer; the overflow of a 32-bit offset beyond 2 GiB is not modelled.
- GetSqImage: file names, and failures to open, allocate or write, are not modelled.
- GetImageFileName: a header name shorter than two bytes, or without a final zero, makes the source copy outside its buffer; the model takes an empty version and the whole name.
- CryptFile: failures to open or write a file are not modelled.
- The S-boxes are parameters: any contents of the right size. So are pc1 and pc2 in `DesKey`, pc1 with even entries; `DesStandard.TABLES` gives those of the source by formulas that move single bits, and rs is given by its formula, a rotation of seven bits. Their entries are not listed.
- ConnectedExactly: speaks of one failure of a settled ring; a second failure leaves a ring in two parts whatever its ports do.
- Control VLANs and the role field of a port steer nothing that is modelled; the instance goes into the messages to NPD and steers nothing else.
- D-Bus and TIPC messages, sockets, the database tables' storage and the hot-standby synchronisation of a chassis.
- des_setkey, jhash_3words and its relatives, the macros over several list cursors, and the bit operations that the header declares without defining.
- The CLI, web and management parts of the repository hold no deep property.
