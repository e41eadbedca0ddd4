# Verified models of graft

graft runs commands on remote machines as if they were local: a local daemon holds connections to
remote daemons, and a remote daemon owns the commands it runs. This project models the parts of graft
where several goroutines, two machines and an unreliable network meet, and proves what they keep.

`dafny verify dfyconfig.toml` checks everything.

## What is modelled

**The resumable output protocol.** A remote daemon drains a command into two bounded rings addressed by
absolute offsets (`OutputRing.dfy`). Pumps tail the rings onto a stream (`OutputPump.dfy`), a client counts
what it delivers, confirms it, and attaches again by offset after a transport break (`RemoteCommand.dfy`).
The ring, the pump loop and the client's loops are imperative: classes and loops proved against
functions on values. `CommandStream.dfy` puts them together as a state machine in which each
mutex-protected block is one step: ring writes, pump reads and sends, deliveries, confirmations, breaks
that lose any suffix of what is in flight, takeovers and re-attaches interleave freely, with any number of
clients. Every theorem about it quantifies over all runs:

- `Alignment.dfy`: in either ring mode and with any number of clients, offsets never misalign; every byte of
  a client's offset was delivered or reported as a gap; an exit status means the end of both histories.
- `Lossless.dfy`: with a lossless ring and one client, what was delivered is always exactly a prefix of the
  history, a replay starts exactly at the client's offset, and the exit status comes after everything.
- `Progress.dfy`: a blocked writer is always unblocked by finitely many steps of the protocol itself.
- `RingWakeups.dfy`: no wake-up is lost and no channel is closed twice.
- `Limits.dfy`, `SecondClients.dfy` and `Forgotten.dfy`: where the promises stop, with exact conditions: a
  client that has closed its input, a client that is not alone, and a command that is forgotten.

**Commands.** `ManagedCommand.dfy` is the attachment and kill state machine, `DisconnectKill.dfy` what a
launched kill does afterwards, `Reaper.dfy` the eviction of finished commands under a memory budget, and
`OutOfBand.dfy` the parking and flushing of signals and window changes across stream swaps.

**Daemons and connections.** `AgentForward.dfy` and `PortForward.dfy` are two parts of the remote daemon
object, `DaemonRefs.dfy` and `ConnectionManager.dfy` the reference counts of shared daemons when one daemon
can supersede another.

**Synchronization.** `Paths.dfy` models lexical path cleaning, `Synchronization.dfy` canonical sources and
compatibility, `ConnectionSync.dfy` and `Connection.dfy` the table of active syncs of a connection, and
`SyncReconcile.dfy` the reconcile pass.

**Two string transformations.** `RemotePath.dfy` marks remote paths for an editor and undoes it;
`ProxyTokens.dfy` expands the tokens of an SSH ProxyCommand. `Strings.dfy` and `Options.dfy` hold what several
modules share.

## Where the code and its promises part

Each of these is stated for all inputs or all runs, with its exact condition.

- Once a client has half-closed its stdin, its confirmations no longer reach the rings, and a piped command
  that fills the ring blocks although its consumer has read everything, until the stream breaks and is
  attached again (`Limits.HalfCloseStalls`; exactly when: `Limits.HalfClosedBlocksIff`).
- A confirmation 2^63 or more beyond the start of a ring makes a signed conversion negative and stalls the
  writer (`OutputRing.OversizedConfirmationStalls`; exactly when, for every ring: `OutputRing.AdmitsIff`).
- graft promises that no output of a piped command is ever dropped. With one client nothing is skipped
  (`Lossless.NothingDropped`). With more, a client that is away can come back to a gap exactly when more was
  confirmed than it has (`SecondClients.LosesOutputIffReleased`, and `SecondClients.LosesOutputIff` for
  confirmations of any size); at every capacity it happens (`SecondClients.SecondClientCausesGap`).
- A piped command that exits with nobody attached is forgotten with what its rings hold. Its client can still
  get everything exactly when all of it was delivered or on its way by then (`Forgotten.ForgottenLosesIff`;
  at every capacity it loses some: `Forgotten.ForgottenLosesOutput`).
- Attaching calls off a kill that is pending but not one that was launched. The holder of a command can be hit
  exactly when a launched kill has yet to send a signal (`DisconnectKills.HolderHitIff`; it happens:
  `DisconnectKills.ReturningClientIsHit`), and an exited command can be signaled exactly when a kill had looked
  before the exit and is not over (`DisconnectKills.ExitedSignaledIff`).
- A connection whose superseded daemon's replacement is destroyed before the follow stays registered on a
  destroyed daemon (`DaemonRefs.FollowLandsOnDestroyed`; exactly when, over runs: `DaemonRefs.RunDanglesIff`). A
  superseded daemon keeps its old key, and releasing it can delete another daemon's entry
  (`DaemonRefs.StaleReleaseSplitsKey`; exactly when, over runs: `DaemonRefs.RunIndexedIff`). A connection removed
  while it is being initialized gives up a reference its initialize counts on
  (`DaemonRefs.HastyRemovalCountsIff`).
- Recreating a sync whose `.git` replica is not started again leaves the old replica running outside the
  table, even past a close (`ConnectionSync.LostReplicaOutlivesClose`; exactly when, over runs:
  `ConnectionSync.RunAccountedIff`).
- A port reconcile that overlaps explicit adds and removes can install a forward without its explicit mark
  (`PortForward.UnserializedReconcileLosesMark`; exactly when: `PortForward.InterleavedMarkedIff`).
- Marking a remote path changes the extension of a file that has none when the connection name has a dot, and
  of a dotfile unless it is named like the connection's own extension (`RemotePath.ExtensionKeptIff`); undoing a
  minted URI drops a host it had (`RemotePath.UnmintUndoesMintIff`).
- The chained replacements of ProxyCommand tokens are one pass exactly when no percent of the host name could
  begin a later token (`ProxyTokens.OnePassIff`).

## Model

| member | source | states |
|---|---|---|
| OutputRing.OutputRing.constructor | pkg/output_ring.go:35-41 | a new ring has an empty history and open channels |
| OutputRing.OutputRing.SetLossless | pkg/output_ring.go:44-49 | only the mode changes |
| OutputRing.OutputRing.SetReleased | pkg/output_ring.go:53-71 | the confirmed offset only grows, and parked writers are woken exactly when it does |
| OutputRing.OutputRing.WriteEvicting | pkg/output_ring.go:84-107 | the whole input is appended to the history, the buffer stays its last bytes, readers are woken; a closed ring refuses |
| OutputRing.OutputRing.WriteRound | pkg/output_ring.go:112-150 | one critical section of a lossless write: it accepts exactly what has room, waits only when there is none, and refuses only when closed |
| OutputRing.OutputRing.WriteLossless | pkg/output_ring.go:109-153 | whatever happens while it is parked, other writers included, a blocked and resumed write appends a prefix of its input once and in order, contiguously if nobody else writes, all of it unless the ring closed or there is no room, and never evicts an unconfirmed byte |
| OutputRing.OutputRing.Close | pkg/output_ring.go:157-169 | the history stays and every parked reader and writer is woken |
| OutputRing.OutputRing.StartOffset | pkg/output_ring.go:172-177 | the offset of the oldest retained byte of the history |
| OutputRing.OutputRing.EndOffset | pkg/output_ring.go:180-185 | the length of the whole history |
| OutputRing.OutputRing.RetainedBytes | pkg/output_ring.go:188-193 | the smaller of the capacity and the history |
| OutputRing.OutputRing.ReadAt | pkg/output_ring.go:200-231 | data is exactly the history from the reported offset on, the offset moves only past evicted bytes, end of data only when closed with nothing left, and a parked reader has nothing to read |
| OutputRing.StepsKeepSafe | pkg/output_ring.go:53-169 | no step evicts an unconfirmed byte of a lossless ring |
| OutputRing.RoomIsCapacityLessUnconfirmed | pkg/output_ring.go:121-127 | with honest confirmations the room of a lossless ring is its capacity less what is unconfirmed |
| OutputRing.AdmitsIff | pkg/output_ring.go:121-127 | exactly when a writer is let in, for every ring and confirmed offset, given the signed conversion |
| OutputRing.StalledStays | pkg/output_ring.go:109-153 | a lossless ring without room does not change until more is confirmed, whatever is written |
| OutputRing.OversizedConfirmationStalls | pkg/output_ring.go:121-127 | a confirmation 2^63 past the start stalls the writer of any lossless ring, and no writes and smaller confirmations undo it |
| RingWakeups.NoLostWakeup | pkg/output_ring.go:53-231 | in every interleaving no channel is closed twice, and a parked reader with data or a parked writer with room can go on |
| OutputPumps.PumpTurn | pkg/server_grpc_command.go:422-447 | one turn sends the history from the offset on, or ends for a stated reason that holds |
| OutputPumps.PumpRing | pkg/server_grpc_command.go:410-461 | for every schedule the bytes sent are exactly the history from the start offset on; end of output means all of it was sent and the ring is closed; an outrun pump ends instead of skipping |
| OutputPumps.TurnIsReadThenSend | pkg/server_grpc_command.go:422-447 | a turn that sends is the protocol's read step followed by its send step |
| OutputPumps.FailedTurnIsFailedSend | pkg/server_grpc_command.go:422-447 | a turn whose send fails is the read step followed by a failed send, which stops the stream |
| OutputPumps.TurnEndIsRead | pkg/server_grpc_command.go:422-447 | a turn that ends the loop, and one with nothing to read, is the protocol's read step |
| Alignment.OffsetsAligned | pkg/server_grpc_command.go:189-461 | in every run, either mode and any number of clients, what is in flight is the history at the client's offset, and on a live stream client offset plus in-flight bytes is the pump's offset |
| Alignment.DeliveriesAccounted | pkg/running_command_remote.go:467-640 | in every run delivered chunks are history slices at increasing offsets, and a client's offset is its first offset plus delivered bytes plus reported gaps |
| Alignment.ExitStatusMeansEnd | pkg/server_grpc_command.go:306-346 | a client that has the exit status has reached the end of both histories, which can grow no more |
| Lossless.NothingDropped | pkg/running_command_remote.go:467-640 | lossless ring, one client: the bytes delivered are always exactly a prefix of the history, with no gap |
| Lossless.ReplayIsExact | pkg/server_grpc_command.go:189-227 | every re-attach is answered with exactly the client's offsets |
| Lossless.ExitStatusIsComplete | pkg/server_grpc_command.go:306-346 | lossless ring, one client: the exit status comes after the whole of both histories was delivered |
| Progress.AckBound | pkg/running_command_remote.go:546-568 | in every quiescent state of a live stream less than the confirmation threshold is unconfirmed, even after confirmations were lost, so a ring that large has room |
| Progress.InternalStepsFinish | pkg/running_command_remote.go:467-568 | every step of the protocol itself that changes anything uses up a bounded amount of work |
| Progress.BlockedWriterIsServed | pkg/output_ring.go:109-153 | while a writer is blocked on a live stream some step of the protocol is possible |
| Progress.SchedulesAreBounded | pkg/server_grpc_command.go:267-461 | no schedule of effective protocol steps is longer than the work there is |
| Progress.WriterUnblocks | pkg/running_command_remote.go:546-568 | after any past, any schedule of protocol steps is bounded, and when none is left the writer has room |
| Limits.HalfClosedBlocksIff | pkg/server_grpc_command.go:353-371 | after a half-close the writer blocks exactly when it has written a capacity past the last confirmation taken |
| Limits.HalfCloseStalls | pkg/server_grpc_command.go:362-371 | at every capacity there is a run in which the client has everything, the stream is whole, the writer is blocked, and no step of the protocol changes that; only a break with a new attach can |
| SecondClients.LosesOutputIff | pkg/server_grpc_command.go:189-227 | over runs with any number of clients, a client that is away can come back to a gap, by writes and its own attach alone, exactly when bytes at its offset are overwritten or may be |
| SecondClients.LosesOutputIffReleased | pkg/server_grpc_command.go:189-227 | short of confirmations of 2^63 that is exactly when more was confirmed than the client has |
| SecondClients.GapOnlyAfterEarlyRelease | pkg/server_grpc_command.go:189-227 | in every such run a step gives a client a gap only if more was confirmed than it has |
| SecondClients.NextAttachReportsOverwritten | pkg/server_grpc_command.go:189-227 | from any state the next attach reports exactly what was overwritten past the offset: a gap just when more than a capacity was written beyond it |
| SecondClients.SecondClientReleases | pkg/server_grpc_command.go:189-227 | at every capacity a second client's attach releases a byte the first has not seen |
| SecondClients.SecondClientCausesGap | pkg/server_grpc_command.go:189-227 | so at every capacity the first client can come back to a gap on a lossless ring |
| Forgotten.ForgottenLosesIff | pkg/command_registry.go:505-534 | once a lossless command is forgotten its one client can still get all output exactly when all of it was delivered or on its way |
| Forgotten.ForgottenLosesOutput | pkg/command_registry.go:505-534 | at every capacity and for every output that fits there is a run in which the client never gets any of it |
| RemoteCommands.RemoteRunningCommand.constructor | pkg/running_command_remote.go:126-203 | a command starts at the offsets it is given with nothing delivered or confirmed, and its books balance |
| RemoteCommands.RemoteRunningCommand.MaybeAck | pkg/running_command_remote.go:546-568 | the confirmed total moves to what was delivered exactly when the threshold is reached and the send works |
| RemoteCommands.RemoteRunningCommand.TryResume | pkg/running_command_remote.go:574-640 | the first attempt that is not unreachable decides; a success moves the offsets to the replay offsets and books the gap; waits double up to the cap |
| RemoteCommands.RemoteRunningCommand.HandleIncoming | pkg/running_command_remote.go:476-519 | one turn of the receive loop |
| RemoteCommands.RemoteRunningCommand.Process | pkg/running_command_remote.go:467-520 | the loop handles every input in order until one ends the command |
| RemoteCommands.ReceiveIsConsume | pkg/running_command_remote.go:490-518 | a turn of the loop is the receive step of the protocol |
| RemoteCommands.AttachIsResume | pkg/running_command_remote.go:602-620 | a break, an attach and its answer are one successful resume |
| RemoteCommands.ConsumedAccounts | pkg/running_command_remote.go:467-640 | whatever arrives, offsets stay first offset plus delivered plus gaps, chunks stay in order, and no more is confirmed than was seen |
| OutOfBand.MessagesConserved | pkg/running_command_remote.go:255-405 | in every interleaving of senders and stream swaps each submitted message is in exactly one place |
| OutOfBand.ParkedOnlyBehindDeadStream | pkg/running_command_remote.go:255-285 | outside an install a parked message waits only behind a stream that cannot send |
| OutOfBand.ParkedOrderKept | pkg/running_command_remote.go:376-395 | parked messages are flushed in the order they were parked, whatever flushes fail half way |
| OutOfBand.Messenger.SendOob | pkg/running_command_remote.go:255-285 | a call takes part in a run of that machine by exactly its own steps, and returns only when its message is sent or parked |
| OutOfBand.Messenger.SetClient | pkg/running_command_remote.go:354-395 | installing a stream is one swap, one flush attempt for each parked message in order, and the failed ones back in front |
| ManagedCommands.ResolvePersistence | pkg/command_registry.go:75-90 | exactly when a command is killed on disconnect |
| ManagedCommands.ManagedCommand.constructor | pkg/command_registry.go:379-449 | a registered command is unattached with nothing pending |
| ManagedCommands.ManagedCommand.Attach | pkg/command_registry.go:257-273 | the new handle is current, the old one canceled, a pending kill called off |
| ManagedCommands.ManagedCommand.ClientGone | pkg/command_registry.go:280-301 | a stale handle changes nothing |
| ManagedCommands.ManagedCommand.DetachAndKeep | pkg/command_registry.go:190-209 | the command is kept from now on and reports whether it was attached |
| ManagedCommands.ManagedCommand.RecordExit | pkg/command_registry.go:505-534 | an exit calls off the kill; the command is forgotten at once exactly when it is unattached and not kept |
| ManagedCommands.AttachmentAndKillSafety | pkg/command_registry.go:190-301 | in every run the current handle is not canceled, each handle is canceled at most once, an armed kill means detached, kill policy and not exited, and so was it at every kill launched |
| ManagedCommands.OldHandlesStayOld | pkg/command_registry.go:257-301 | a handle that is no longer current never becomes current again |
| ManagedCommands.StaleGoodbyeIsIgnored | pkg/command_registry.go:280-301 | a goodbye that arrives however late for an old handle changes nothing |
| ManagedCommands.KeepIsAbsorbing | pkg/command_registry.go:190-209 | once kept, always kept, and no disconnect kill is launched any more |
| ManagedCommands.NoKillAfterDetach | pkg/command_registry.go:190-209 | no disconnect kill is launched after an explicit detach |
| ManagedCommands.NoKillWhileAttached | pkg/command_registry.go:257-301 | no step launches a disconnect kill while a client is attached |
| ManagedCommands.GoodbyeArmsKillIff | pkg/command_registry.go:280-301 | the current client's goodbye arms a kill exactly for a running kill-policy command |
| ManagedCommands.TakeoverCancelsExactlyCurrent | pkg/command_registry.go:190-273 | an attach or detach cancels the current handle and no other |
| DisconnectKills.SignalsStemFromLaunches | pkg/command_registry.go:298-333 | in every run a launch sends at most one terminate and then one kill signal, nothing else sends any, and each was launched detached, under the kill policy and before the exit |
| DisconnectKills.HolderHitIff | pkg/command_registry.go:257-333 | a client holding the command can be hit before it leaves exactly when a launched kill has yet to send a signal |
| DisconnectKills.ExitedSignaledIff | pkg/command_registry.go:311-333 | an exited command can still be signaled exactly when a kill has passed its look at the exit and is not over |
| DisconnectKills.ReturningClientIsHit | pkg/command_registry.go:257-333 | a run in which a client is back before the signal and is hit all the same |
| Reaper.CommandRegistry.Remove | pkg/command_registry.go:570-576 | exactly that command goes |
| Reaper.CommandRegistry.Survey | pkg/command_registry.go:582-612 | the total is what all commands retain, and the candidates are exactly the exited, unattached ones |
| Reaper.CommandRegistry.ReapExited | pkg/command_registry.go:582-639 | running and attached commands stay; what goes is a minimal prefix of the candidates by exit time and id; it ends within budget or with no candidate left |
| Reaper.ReapedIsUnique | pkg/command_registry.go:582-639 | that description determines the outcome |
| AgentForward.AgentForwards.TryBegin | pkg/remote_daemon.go:1039-1062 | a slot is taken, with a fresh generation, exactly when the daemon is open and the name is free |
| AgentForward.AgentForwards.End | pkg/remote_daemon.go:1068-1083 | the name's forward is canceled and its slot freed; without one nothing changes |
| AgentForward.AgentForwards.EndGen | pkg/remote_daemon.go:1131-1145 | a worker's end removes only its own generation |
| AgentForward.AgentForwards.TeardownForReconnect | pkg/remote_daemon.go:783-822 | every forward is canceled and every slot freed |
| AgentForward.AgentForwards.Close | pkg/remote_daemon.go:1900-1941 | every forward is canceled, its slot stays taken, and no forward can begin again |
| AgentForward.NoForwardLeaks | pkg/remote_daemon.go:1039-1145 | in every interleaving generations are distinct and increasing, and each one issued is in its slot, being removed, or canceled |
| AgentForward.GoneStaysGone | pkg/remote_daemon.go:1039-1145 | a generation that left its slot never returns to one |
| AgentForward.LateWorkerChangesNothing | pkg/remote_daemon.go:1131-1145 | a worker that ends late removes nothing, whatever began meanwhile |
| AgentForward.BackoffDoublesToMaxIff | pkg/remote_daemon.go:1024-1030 | the backoff is base times a power of two, capped, for every count of failures exactly when five doublings reach the cap |
| PortForward.PortForwards.AddExplicit | pkg/remote_daemon.go:225-304 | an accepted spec is recorded, its forward is marked and on the spec's port |
| PortForward.PortForwards.RemoveExplicit | pkg/remote_daemon.go:308-333 | a recorded spec and its forward go, and it reports whether there was one |
| PortForward.PortForwards.ReconcilePortForwards | pkg/remote_daemon.go:1328-1432 | collecting, dropping and starting in loops is the reconcile below |
| PortForward.PortForwards.TeardownForReconnect | pkg/remote_daemon.go:783-822 | forwards go, explicit specs stay |
| PortForward.ExplicitMarking | pkg/remote_daemon.go:225-333 | in every serialized run a forward is marked explicit exactly when its key is recorded, and is then on the recorded local port |
| PortForward.ReconcileReachesWanted | pkg/remote_daemon.go:1328-1432 | afterwards the forwards are exactly the detected and the explicit ports, and the ones without conflict were not touched |
| PortForward.ReconcileSettles | pkg/remote_daemon.go:1328-1432 | a second reconcile restarts exactly the conflicted forwards |
| PortForward.InterleavedMarkedIff | pkg/remote_daemon.go:1328-1432 | whatever is added, removed, torn down or closed between planning and installing, the marking is right afterwards exactly when the daemon was closed or every planned port is asked for as it was at planning |
| PortForward.UndisturbedPlanIsMarked | pkg/remote_daemon.go:1328-1432 | it is enough that no planned port is added or removed meanwhile |
| PortForward.UnserializedReconcileLosesMark | pkg/remote_daemon.go:1405-1420 | for every spec, an add of a detected port between planning and installing leaves its forward unmarked |
| DaemonRefs.ReleaseIsSafe | pkg/connection_manager.go:166-262 | in every run a daemon's count covers each initialize call and registered connection on it, and the release that destroys a daemon leaves neither behind |
| DaemonRefs.DanglesIff | pkg/connection_manager.go:421-434 | a step puts an owner on a destroyed daemon exactly when it follows a supersede whose target was destroyed |
| DaemonRefs.RunDanglesIff | pkg/connection_manager.go:166-262 | over whole runs no owner is ever on a destroyed daemon exactly when no follow lands on one |
| DaemonRefs.FollowLandsOnDestroyed | pkg/connection_manager.go:421-434 | a run in which that leaves a registered connection behind |
| DaemonRefs.IndexedIff | pkg/connection_manager.go:792-809 | a step keeps every daemon in use under its key exactly when it is not the last release of a daemon that has lost its key to another |
| DaemonRefs.RunIndexedIff | pkg/connection_manager.go:166-262 | over whole runs every daemon in use stays under its key, so that no key is served by two, exactly when there is no such release |
| DaemonRefs.StaleReleaseSplitsKey | pkg/connection_manager.go:792-809 | a run with such a release, after which two live daemons serve one key |
| DaemonRefs.HastyRemovalCountsIff | pkg/connection_manager.go:765-809 | a removal during an initialize of the same name keeps the counts honest exactly when another reference was leaked, and destroys the daemon if there was no other |
| ConnectionManagers.ConnectionManager.GetOrCreateDaemon | pkg/connection_manager.go:213-262 | one reference is taken on the daemon at the key, created if there was none |
| ConnectionManagers.ConnectionManager.CreateConnection | pkg/connection_manager.go:114-133 | the connection is registered under its name, or refused and its reference leaked |
| ConnectionManagers.ConnectionManager.ReassignDaemon | pkg/connection_manager.go:166-199 | the daemon takes the resolved key, or is superseded by the one that has it |
| ConnectionManagers.ConnectionManager.FollowSupersede | pkg/connection_manager.go:203-209 | one reference moves with its connection |
| ConnectionManagers.ConnectionManager.ReleaseDaemon | pkg/connection_manager.go:792-809 | the last reference destroys the daemon and deletes its key |
| ConnectionManagers.ConnectionManager.Abandon | pkg/connection_manager.go:464-472 | a failed initialize unregisters its name and releases its reference |
| ConnectionManagers.ConnectionManager.RemoveConnection | pkg/connection_manager.go:765-788 | at any time a registered name is unregistered and its reference released, an unknown one is an error; with no initialize of the name under way that is the step of the runs |
| Paths.PrefixIsContainment | pkg/utils.go:64-75 | for canonical paths the textual prefix test is containment of directories |
| Paths.PrefixesAreNested | pkg/utils.go:64-75 | two directories that both contain a path contain one another |
| Paths.TranslationKeepsPlace | pkg/connection.go:972-994 | moving a path from under a source to under a destination keeps its place below it |
| Paths.OwnParentIff | pkg/synchronization.go:100-108 | a cleaned path is its own parent exactly when it names the root or nothing |
| Synchronization.CanonicalizeSourceIff | pkg/synchronization.go:81-111 | each outcome exactly when; a key is cleaned, names the same directory as the source, and is absolute exactly when the source or the local root is |
| Synchronization.CanonicalSourceIsFixed | pkg/synchronization.go:81-111 | a canonical key resolves to itself against any root |
| Synchronization.SpellingsShareKey | pkg/synchronization.go:77-80 | two sources share a key exactly when they name one directory |
| Synchronization.CheckSyncOverlap | pkg/synchronization.go:120-142 | refused exactly when another source contains it or is contained in it, and the error names one |
| Synchronization.IncludesCompatible | pkg/synchronization.go:276-292 | sorting and comparing is equality of the patterns as a multiset; no desired pattern is always satisfied |
| ConnectionSync.SourcesFormAntichain | pkg/connection.go:576-738 | in every run, with closes at any moment, sources are absolute, clean and not the root, none contains another, and no directory lies under two |
| ConnectionSync.EstablishedAccountedIff | pkg/connection.go:576-738 | every running session stays one the table would pause, exactly when no running replica is dropped from a recreated entry |
| ConnectionSync.RunAccountedIff | pkg/connection.go:576-738 | over whole runs that holds throughout exactly when no establishment loses a running replica |
| ConnectionSync.SessionsAccounted | pkg/connection.go:788-811 | short of that, in every run a closed connection has no session running |
| ConnectionSync.LostReplicaOutlivesClose | pkg/connection.go:714-735 | a run that leaves a replica running after the close |
| Connections.Connection.SetRoots | pkg/connection.go:488-510 | roots change only while nothing is synced, and empty arguments keep the old root |
| Connections.Connection.Close | pkg/connection.go:1014-1030 | the table is empty, the connection closed, and every session of the table paused |
| Connections.Connection.RecordSync | pkg/connection.go:788-811 | an entry is stored, or, if the connection was closed meanwhile, its sessions are paused |
| Connections.Connection.ApplyGitReplicaFlip | pkg/connection.go:743-772 | only the replica of the entry changes |
| Connections.Connection.CreateSync | pkg/connection.go:663-735 | the primary is started and recorded before the replica, with every failure in between |
| Connections.Connection.EstablishSynchronization | pkg/connection.go:576-738 | the decision as a whole; an intent already satisfied touches no session |
| Connections.Connection.Synchronizations | pkg/connection.go:548-565 | lists exactly the active syncs |
| Connections.Connection.MatchCwd | pkg/connection.go:972-994 | the local root wins; otherwise every sync whose source contains the directory would give this answer, so iteration order does not matter; none is reported only if none does |
| SyncReconcile.CanonicalizeIntents | pkg/synchronization.go:151-163 | each source is resolved, and one that cannot be stays |
| SyncReconcile.ResolvedSourcesAreCanonical | pkg/synchronization.go:144-150 | resolved absolute sources are canonical against any root |
| SyncReconcile.ComputeMissingSyncs | pkg/server.go:675-701 | exactly the desired intents that no active sync satisfies, in order |
| SyncReconcile.ReconcileSyncs | pkg/server.go:569-592 | the pass establishes each missing intent in order |
| SyncReconcile.EstablishedSatisfies | pkg/connection.go:576-738 | a success leaves its intent satisfied and every other sync as it was |
| SyncReconcile.SatisfiedIsNoOp | pkg/connection.go:606-656 | a satisfied intent, its includes in any order, is a no-op whatever the outside would answer |
| SyncReconcile.ReconcileConverges | pkg/server.go:675-701 | one successful pass over distinct canonical sources leaves nothing missing, and re-establishing any of them is a no-op |
| SyncReconcile.CooperativeFailsIff | pkg/connection.go:576-738 | with a cooperative outside an establishment fails exactly on an overlap or another destination |
| SyncReconcile.PassSucceeds | pkg/server.go:569-592 | with a cooperative outside a pass over distinct, separate sources succeeds |
| RemotePath.StripUndoesDecorate | pkg/local_client_commands_lsp.go:733-773 | stripping undoes marking for every path and every connection name without a slash |
| RemotePath.DecorateIsInjective | pkg/local_client_commands_lsp.go:733-752 | two paths never share a marked path |
| RemotePath.DecorateTellsConnections | pkg/local_client_commands_lsp.go:733-752 | two connections never share a marked path, and a marked path is longer by the mark |
| RemotePath.ExtensionKeptIff | pkg/local_client_commands_lsp.go:733-752 | for every path and connection name without a slash, the extension is kept exactly when there is no file name; or it has a stem, and an extension or a connection name without a dot; or it is a dotfile named like the connection's own extension |
| RemotePath.UnmintUndoesMintIff | pkg/local_client_commands_lsp.go:556-613 | undoing a minted URI gives it back exactly when it had no host |
| ProxyTokens.SubstituteIsExpand | pkg/ssh_config.go:97-108 | the six chained replacements are one left-to-right expansion of the tokens whenever no inserted value could begin a token replaced later, or that token stands for itself |
| ProxyTokens.OnePassIff | pkg/ssh_config.go:97-108 | for plain port, user and alias they are one pass over every command exactly when no percent of the host name could begin a later token |
| ProxyTokens.LuckyTokens | pkg/ssh_config.go:97-108 | with a percent in the port that is no longer necessary: replacements can undo each other |

## Left out

- gRPC, SSH, Docker, pty and process plumbing: a stream is a FIFO that can break and lose a suffix; connectors are answers.
- Mutagen sessions, ignore lists and permission modes: starting, resuming and pausing a session is an answer in `Env`, as are resolving a remote path, creating its root, parsing modes and whether `.git` is a directory. Session names are the pair of paths.
- Offsets are unbounded naturals; only the signed conversion in the room computation is modelled with its width. Capacities are positive and below 2^63, which is what registration makes of them.
- The handshake that starts a command is folded into the initial state; the local daemon's relay of the stream is not modelled.
- Bytes still in the process pipe when the drain grace runs out: the history is what the ring accepted.
- Delivery of stdin: the code does not promise it exactly once.
- Commands that cannot be resumed: their sends and receives fail outright.
- The window-size re-sync and the replayed stdin close when a stream is installed: they send state, not parked messages.
- All wall-clock timing: timers are steps that may fire only while armed, and a grace period may end at any time. The kills a client asks for and the kill at shutdown take the same steps as a disconnect kill and are not launched in `DisconnectKill`.
- Explicit kills and the reaper's order of eviction in `CommandStream`: an exited command may be reaped there at any time once nobody is attached.
- `OutOfBand` numbers messages and streams in order of appearance and takes a stream whose send failed as unable to send again.
- Aliasing of daemon and connection objects: `DaemonRefs` and `ConnectionManager` name them by number and keep the superseded-by pointer in a map. A follow and the update of the connection's pointer are one step, removals are serialized, and in the runs they do not overlap an initialize of the same name; `HastyRemovalCountsIff` says what one that does overlap does to the counts. The remote-roots list, the published snapshot and the comparison of local roots are not modelled, the last being an answer.
- The agent forwards and the port forwards of a remote daemon are two classes; listeners, conflicts and workers are answers. A port's key is the pair of protocol and remote port.
- Symlinks, volume names and case folding of paths: cleaning is lexical and for POSIX.
- Remapping rules and JSON traversal of the editor protocol, URL escaping and Unicode case folding: `RemotePath` models the minting and unminting branches on parsed URIs.
- Commands with a NUL byte in ProxyCommand expansion, which no configuration file can hold.
- The order of the critical sections within one initialize call is the phase of its owner in `DaemonRefs`; the methods of `ConnectionManager` are those sections and ask for the phase they belong to.
- ProxyTokens.OnePassIff: asks that port, user and alias hold no percent, because with one a later replacement can put an earlier one back, as `LuckyTokens` shows, and no condition on the host alone decides; `SubstituteIsExpand` covers values with percents that cannot begin a later token.
- RemoteCommands.RemoteRunningCommand.TryResume: does not model the consumer's context ending between attempts other than as the end of the list of attempts.
- SyncReconcile.ReconcileConverges: asks for distinct sources, since two intents for one source with different modes replace each other in turn.
- CLI commands, the VS Code extension, logging, updates, service managers, port-spec parsing and environment merging: they would only add easy members.
