# dn42 autopeer: a verified model

The system lets dn42 members set up WireGuard and BGP peerings with an operator's routers. A backend
keeps a table of peers; on every router a node service dials the backend over a WebSocket, runs the
commands it is sent, and writes and deletes the two configuration files of each peer. This project
models the parts where state and arithmetic are hard to get right and proves what they promise:

- `Hub`, `HubRuns`, `NodeHub`: the backend's node hub as a step machine, what holds over every
  interleaving of its coroutines, and the hub as an object whose methods are those steps.
- `EndToEnd`: hub, channels and concurrent node workers together.
- `Lifecycle`, `PeerState`, `DeployedRows`, `RemovedRows`, `RouterFiles`, `Orphans`,
  `PeerOutcomes`, `PeerService`: creating, editing, moving, disabling and deleting peers against the
  files on the routers, with node calls that fail or lose their reply.
- `Runner`, `FileSteps`, `NodeServer`: the node's file operations, one by one and under concurrency.
- `PeerNames`, `Paths`, `TunnelAddress`, `PeerInput`, `Text`: names, file paths, ports and addresses
  derived from ASNs, and the normalisation of submitted forms; `Clashes`: runs in which two peers of one
  node get in each other's way.
- `Bytes`, `FrameCodec`, `WsConn`: the node's own WebSocket framing.
- `RateLimiter`, `ChunkBlocks`, `Prefix`, `Placeholder`: four algorithms with a clean specification.

Object state that the program updates in place is a class whose methods are proved against a
specification function; the theorems are lemmas about those functions and about whole runs of them.

## Where code and documentation disagree

The model follows the code.

- docs/node-api.md:124 and 311 say `applied` is true whenever files were already written. The code
  reports false after the WireGuard file was written if the BIRD file or its group then fails
  (`Runner.AppliedUnderReports` says exactly when).
- docs/node-api.md:276 limits `request_id` to 64 characters; the code only refuses an empty one.
- app/peer/validation.py:203-204 says ports cannot clash because a node has one peer per ASN. They can
  outside the 424242xxxx block: `PeerNames.PortsClash` gives the exact condition, `Clashes.TwoPeersOnePort`
  a run, and `PeerNames.Dn42Ports` the block in which the claim holds.
- app/node_ws.py:84-105: a registration that completes late writes its own older timestamp, so status
  writes can be closer than 60 seconds (`HubRuns.StaleRegistrationDefeatsThrottle`);
  `HubRuns.WritesAreSpaced` says exactly when.
- internal/runner/runner.go:62-63 says any IPv4 or IPv6 target is permitted. A prefix that begins outside
  the IPv4-mapped addresses and ends among them is refused (`Prefix.IsAllowedPrefix`).

## Reading the results

- Runs of peer operations are sequential. Each node command is atomic and either never arrives, takes
  effect with its reply lost, or takes effect and is answered. The results about routers holding or
  lacking a peer's files assume that the two directories of a router differ once cleaned and that no two
  peers of one node share a name; `RouterFiles.Dn42RunIsDistinct` shows the latter is automatic for the dn42
  block.
- The rendering of the WireGuard and BIRD texts is a parameter, so those results hold for every
  rendering. Operating-system results and command exit codes are parameters as well.
- Hub timestamps are integers (microseconds), the limiter's are reals.

## Model

| member | source | states |
|---|---|---|
| Hub.StepKeepsInv | app/node_ws.py:71-244 | every atomic step of every coroutine keeps the hub consistent: pending tables hold only unfinished requests of their connection, and every open one, superseded connections hold none, no open future is out of reach of an answer, `online` is exact |
| Hub.RunKeepsInv | app/node_ws.py:71-244 | the same over every interleaving of dialling, registration, hang-up, request, send, message, timeout and wake-up |
| Hub.DialKeepsInv | app/node_ws.py:84-105 | a node dialling in over a live connection leaves no request behind on the old one |
| Hub.FailEffect | app/node_ws.py:71-75 | failing a connection settles its open futures, empties its table and touches nothing else |
| HubRuns.WaitingSitsOnCurrent | app/node_ws.py:84-116 | in every reachable state an unresolved request sits in the pending table of the connection currently registered for its node |
| HubRuns.ReplacementFailsOpenRequests | app/node_ws.py:84-105 | replacing a connection fails all requests open on its node and no other |
| HubRuns.HangupFailsOpenRequests | app/node_ws.py:107-116 | losing a connection fails all requests open on it and no other; a replaced connection has none |
| HubRuns.FailedEndsOffline | app/node_ws.py:143-153 | a request whose connection failed ends as offline or timed out, never as answered |
| HubRuns.OutcomeIsFinal | app/node_ws.py:127-171 | a finished request is never changed by any later step |
| HubRuns.OutcomeIsFinalInRun | app/node_ws.py:127-171 | nor by any later run |
| HubRuns.EveryWaitCanEnd | app/node_ws.py:127-153 | a request has a step of its own to take, send return, timeout or wake-up, exactly as long as it is unfinished |
| HubRuns.WaitIsBounded | app/node_ws.py:127-153 | whatever interleaves, a request takes at most two steps of its own and is finished after the ones it has left |
| HubRuns.OwnStepsMoveOn | app/node_ws.py:127-153 | only its own steps move a request on, and each of them does |
| HubRuns.StrayResponseIsInert | app/node_ws.py:164-171 | a late, repeated, misdirected or invented response changes nothing |
| HubRuns.WantedResponseAnswers | app/node_ws.py:143-171 | a wanted response resolves its request and nothing else, and the wait ends with its error, else its result, else as invalid |
| HubRuns.UnansweredEndsByCause | app/node_ws.py:135-153 | a failed send or a lost connection ends a request as offline, an expired wait as timed out |
| HubRuns.RuntimeAfterStep | app/node_ws.py:84-200 | when a node was connected and last seen, and its reported and stored status, move exactly with dialling in, reports, answers and writes |
| HubRuns.SupersededIsInert | app/node_ws.py:107-116 | neither a message nor the end of a superseded connection changes runtime state or any request |
| HubRuns.EntryIsLastRegistered | app/node_ws.py:84-116 | a node's hub entry is the connection registered last for it, and absent once that one unregisters, in both directions |
| HubRuns.CurrentAfterStep | app/node_ws.py:84-116 | only registration and the end of the registered connection change the table of connections |
| HubRuns.WritesAreSpaced | app/node_ws.py:216-244 | between two consecutive status writes of a node there are 60 seconds or a new key exactly when the registration completing last in between had not begun before the first, or the time is over, or nobody can report |
| HubRuns.StampIsLastRegistration | app/node_ws.py:99-105 | without status writes the recorded time is when the last completed registration had begun |
| HubRuns.NoRegistrationKeepsStart | app/node_ws.py:216-244 | so without a completed registration in between consecutive writes are always spaced |
| HubRuns.RecordedKeyIsLastReported | app/node_ws.py:216-244 | throttling loses no key: the recorded key is the last one a registered connection reported |
| HubRuns.KeyAfterStep | app/node_ws.py:216-244 | the recorded key moves with each reported key and with nothing else |
| HubRuns.StaleRegistrationDefeatsThrottle | app/node_ws.py:84-105 | counterexample: a replaced connection's registration that completes late puts an older timestamp back, and two writes follow a second apart |
| NodeHub.NodeHub.FailPending | app/node_ws.py:71-75 | the loop over the pending table does what the step machine says |
| NodeHub.NodeHub.Register | app/node_ws.py:84-101 | the registration segment up to its database write is the machine's dial step |
| NodeHub.NodeHub.CompleteRegistration | app/node_ws.py:99-105 | the segment after the write is the machine's second step |
| NodeHub.NodeHub.Unregister | app/node_ws.py:107-116 | unregistering is the machine's hang-up step, also for a superseded connection |
| NodeHub.NodeHub.OpenRequest | app/node_ws.py:118-134 | lookup and pending insert happen in one segment; a disabled or offline node leaves no trace |
| NodeHub.NodeHub.SendReturned | app/node_ws.py:135-153 | a failed send ends the request as offline and removes its entry |
| NodeHub.NodeHub.TimedOut | app/node_ws.py:144-153 | a timeout cancels an open future, ends the request and removes its entry |
| NodeHub.NodeHub.Woke | app/node_ws.py:143-162 | a settled future ends the request with the outcome it carries; liveness is refreshed only after a valid result |
| NodeHub.NodeHub.RefreshLiveness | app/node_ws.py:183-200 | only the registered connection can refresh a node's liveness |
| NodeHub.NodeHub.PersistIfNeeded | app/node_ws.py:216-244 | a status is written exactly when the interval elapsed or the key is new |
| NodeHub.NodeHub.Handle | app/node_ws.py:164-181 | handling one message is the machine's delivery step |
| EndToEnd.NextKeepsInv | internal/backend/client.go:182-231 | with two channels per connection, any number of node workers and losses anywhere, queues, workers, log and hub stay consistent |
| EndToEnd.RunInv | internal/backend/client.go:182-231 | the same over every run of the whole system |
| EndToEnd.AnswersAreTheNodes | app/node_ws.py:132-162 | whatever overtakes or is lost, a result is the named node's own answer to the very command and payload its caller asked for, an error its own error |
| EndToEnd.RequestsWereAsked | app/node_ws.py:118-142 | every request of a reachable state stems from exactly one asking event of the run and carries its node, command and payload, and every asking event made one |
| EndToEnd.ExecutedAtMostOnce | internal/api/server.go:50-83 | no node runs one request twice, and what it logged for a request never changes |
| EndToEnd.OneOutcome | app/node_ws.py:143-171 | once a request has an outcome no event of the whole system changes it |
| PeerState.RunKeepsPlaced | app/peer/service.py:180-190 | in every run each (node, ASN) pair has at most one row and every row's node exists |
| PeerState.StepKeepsPlaced | app/web/admin.py:428-430 | each single operation keeps that, including the refusal to delete a node in use |
| PeerState.UpdateChangesRow | app/peer/service.py:396-468 | an edit is refused without effect, or changes one row, never its ASN, and only to a free place |
| PeerState.CreateAddsRow | app/peer/service.py:338-393 | a creation is refused without effect, or adds one row where none of that ASN was |
| PeerState.RunKeepsSettled | app/peer/service.py:129-177 | between operations no row is left deploying; deployed rows are approved and dated, removed rows undated, disabled rows never deployed |
| PeerState.FailedTeardownKeepsDate | app/peer/service.py:169-173 | a lost or failed removal marks the row failed and leaves its deployment date standing |
| DeployedRows.RunKeepsCurrent | app/peer/service.py:129-177 | in every run, lost replies included, a deployed row not silently edited since is held by its router: the two files of its latest payload, built from the row's present values |
| DeployedRows.DeployedMeansHeld | app/api/telegram.py:419-438 | when every edit redeploys or tears down, that holds of every row marked deployed |
| DeployedRows.SilentEditGoesStale | app/web/admin.py:549 | an accepted edit without redeployment keeps the row deployed, and the guarantee survives exactly when node and values did not change |
| DeployedRows.StepKeepsCurrent | app/peer/service.py:338-491 | each operation, however its node calls end, keeps the guarantee for the rows of all peers |
| DeployedRows.DeployHolds | internal/runner/runner.go:337-399 | an acknowledged deployment leaves the router holding the request's two files, and no deployment touches another name |
| DeployedRows.LoudRunsHaveNoStale | app/api/telegram.py:419-438 | rows go stale through silent edits only |
| RemovedRows.RemovedMeansGone | app/peer/service.py:151-177 | in every run a row marked removed, unless silently edited since, has neither of its files on its router |
| PeerOutcomes.DeployedFilesAreTheRows | app/peer/service.py:129-177 | in every run, lost replies included, a deployed row not silently edited since has on its router the filled-in WireGuard text of its present values under its listen port, and the BIRD text of those values under its name and the local ASN, the node's part as the node was at some point of the run |
| PeerOutcomes.PayloadIs | app/peer/deploy.py:19-44 | a payload is built exactly when both ASNs are numeric and the peer's has a port; it carries id, ASN and node name, and each text in its own place |
| PeerOutcomes.PayloadIsValid | internal/runner/runner.go:454-492 | what is built passes the node's checks exactly when both trimmed texts are snippets and the node name is one |
| PeerOutcomes.NodeAnswers | internal/runner/runner.go:337-441 | a deployment or removal succeeds exactly when the request is valid, the key is there where needed and every step works |
| PeerOutcomes.DeployOutcome | app/peer/service.py:129-148 | a deployment marks the row deployed and dated exactly when the node acknowledges it, and then its router shows its two files; else the row failed, and its values stay in both cases |
| PeerOutcomes.TeardownOutcome | app/peer/service.py:151-177 | a removal marks the row removed exactly when the node acknowledges it, and then neither file is left; else the row failed and keeps its date |
| PeerOutcomes.CreateOutcome | app/peer/service.py:338-393 | a peer is created exactly when its place is free, else refused as a duplicate, and its form acceptable; its row has the form's values, field by field, and is deployed exactly when that was acknowledged |
| PeerOutcomes.UpdateOutcome | app/peer/service.py:396-468 | an edit is carried out exactly when its status, place and form are acceptable, and a bad status or a taken place is named, in this order; the row then has the form's values, a blank MTU keeping the old one, its node and its status, and is removed, deployed or left as asked and acknowledged |
| PeerOutcomes.RedeployOutcome | app/web/admin.py:556-579 | exactly the approved peers are redeployed, with the values they have |
| PeerOutcomes.DeleteOutcome | app/peer/service.py:471-491 | the row is gone, every other row and router is as before, and the peer's files are gone if the removal was acknowledged |
| PeerOutcomes.DeleteNodeOutcome | app/web/admin.py:424-435 | a node is deleted exactly when no row points at it, and nothing else changes |
| RouterFiles.NeighboursUntouched | app/peer/service.py:109-177 | whatever is done to one peer, and however it ends, the files of every other peer read as before |
| RouterFiles.Dn42NeighboursApart | app/peer/config.py:45-56 | in every run with 424242xxxx ASNs, two peers of one node have different ports in 20000-29999, different valid interface names of at most 15 characters and no common path |
| RouterFiles.Dn42RunIsDistinct | app/peer/service.py:358-361 | the assumption of distinct names per node is always met when all ASNs are of that block |
| Orphans.RunLeavesNoOrphans | app/peer/service.py:109-126 | when removals for departing rows reach the router, every file on every router is named after a row pointing at it, through moves, disabling, failed deployments and deletions |
| Orphans.StepKeepsNoOrphans | app/peer/service.py:436-491 | each operation keeps that |
| Orphans.RemovalSettlesDebt | app/peer/service.py:471-491 | one effective removal clears whatever a departed row left on its old node |
| Orphans.DeletedNodeIsClean | app/web/admin.py:424-435 | a node that may be deleted has a router without any peer's files |
| PeerService.PeerService.FindPeerOnNode | app/peer/service.py:180-190 | finds another row of the ASN on the node exactly when there is one |
| PeerService.PeerService.DeployPeerRequest | app/peer/service.py:129-148 | the row is committed as deploying before the node is called and with the outcome after; together this is the lifecycle operation |
| PeerService.PeerService.TeardownPeerRequest | app/peer/service.py:151-177 | pending changes are committed before the node is called and the outcome after; together this is the lifecycle operation |
| PeerService.PeerService.CreatePeer | app/peer/service.py:338-393 | the lifecycle creation, keeping one row per node and ASN; the row is first committed as deploying; a refusal commits nothing |
| PeerService.PeerService.UpdatePeer | app/peer/service.py:396-468 | the lifecycle edit; the edited row is committed before any command is sent, the outcome after, and a refusal commits nothing |
| PeerService.PeerService.RedeployPeer | app/web/admin.py:556-579 | only approved peers are redeployed |
| PeerService.PeerService.DeletePeer | app/peer/service.py:471-491 | the row goes whatever becomes of the removal |
| PeerService.PeerService.DeleteNode | app/web/admin.py:414-435 | a node with peers is not deleted |
| PeerService.PeerService.ApplyDeployResult | app/peer/deploy.py:85-94 | the status and date columns after a deployment |
| PeerService.PeerService.DeployPeer | app/peer/deploy.py:47-53 | a disabled node or an unbuildable payload sends nothing; otherwise the payload is sent while the row is visible as deploying |
| PeerNames.Dn42Ports | app/peer/validation.py:200-210 | in the dn42 block ports lie in 20000-29999 and differ exactly when the ASNs do |
| PeerNames.PortsClash | app/peer/validation.py:200-210 | ports of any two numeric ASNs clash exactly when the ASNs agree modulo 100000 in a value that is a port |
| PeerNames.AsnSpellings | app/peer/validation.py:213-219 | an ASN is accepted exactly as its digits, with white space around them and with AS in either case before them |
| PeerNames.PortIsLastDigits | app/peer/validation.py:200-210 | the port of any numeric ASN is its value modulo 100000, refused exactly when that is no port |
| Clashes.TwoPeersOnePort | app/peer/validation.py:200-210 | counterexample: in an accepted run AS4242420090 and AS4242120090 listen on one port of one node |
| Clashes.TwoPeersOneName | app/peer/config.py:45-56 | counterexample: in an accepted run AS4242425001 and AS65001 go by one name on one node |
| PeerNames.NamesClash | app/peer/config.py:45-56 | names clash exactly when the ASNs' last four digits and the ids' last four characters agree |
| PeerNames.NameReads | app/peer/config.py:45-56 | a name reads DN42_, the ASN's last four digits, an underscore and the id's last four characters |
| PeerNames.Dn42Names | app/peer/config.py:45-56 | in the dn42 block different ASNs have different names, whatever the ids |
| PeerNames.NamesClashOutsideBlock | app/peer/config.py:45-56 | counterexample: AS4242425001 and AS65001 share a name when their ids end alike |
| PeerNames.DerivedNameIsSafe | internal/runner/runner.go:74 | every derived name passes the node's name rule and fits a Linux interface name |
| PeerNames.PathInjective | internal/runner/runner.go:347-350 | joined paths agree exactly when the cleaned directories and the names do, however the directories are written |
| PeerNames.PathStaysInside | internal/runner/runner.go:494-515 | the guard against leaving the peer directory never refuses a valid name, for any directory and working directory |
| Paths.GuardIsExact | internal/runner/runner.go:494-515 | the guard lets exactly the places strictly below the directory pass |
| Paths.CleaningRules | internal/runner/runner.go:347-350 | cleaning drops empty and dot pieces, lets a double dot undo the piece before it and never leaves the root, and keeps all else |
| Paths.JoinInjective | internal/runner/runner.go:347-350 | joining a file name tells cleaned directory and name apart |
| Paths.ChildPlace | internal/runner/runner.go:347-355 | a joined file lies right below its directory, relative or absolute |
| FileSteps.TemporaryIsFresh | internal/runner/runner.go:548 | a temporary file never has the name of a configuration file |
| TunnelAddress.DerivedMatchesPeer | app/peer/service.py:212-225 | our derived address has the peer's kind; for a ULA it is in the peer's /64 exactly when the ASN suffix has at most 16 digits |
| TunnelAddress.SuffixFits | app/peer/validation.py:222-243 | a suffix without leading zeros is below 2^64 exactly when it has at most 16 digits |
| TunnelAddress.LinkLocalDerived | app/peer/validation.py:152-163 | an address derived from an ASN is link-local and not a ULA |
| TunnelAddress.AsnAddress | app/peer/validation.py:222-243 | the link-local address of any numeric ASN is fe80:: plus its digits behind a leading 424242, else its last four, read in base sixteen; there is none beyond 16 bits |
| TunnelAddress.OurAddress | app/peer/service.py:212-225 | our derived address is that one for a link-local peer, else the same number counted up from the start of the peer's /64 |
| TunnelAddress.Dn42Address | app/peer/validation.py:222-243 | AS424242wxyz has fe80::wxyz, and ::wxyz in the /64 of a ULA peer |
| TunnelAddress.Dn42AddressesDiffer | app/peer/validation.py:222-243 | no two ASNs of that block share an address, neither a link-local nor a derived one |
| TunnelAddress.SubnetStaysUla | app/peer/validation.py:179-197 | an address in a ULA's /64 is a ULA |
| TunnelAddress.KindsDisjoint | app/peer/validation.py:166-197 | no address is both link-local and a ULA |
| PeerInput.ConfirmKeepsPreview | app/peer/service.py:228-335 | confirming a preview creates exactly what was previewed, our derived address included |
| PeerInput.FormAccepted | app/peer/service.py:228-288 | a form is accepted with given values exactly when each of them follows its field, given, blank or derived, and is one a peer may have, and some peer address was given |
| PeerInput.AcceptedAddressesMatch | app/peer/service.py:212-288 | an accepted form with our address derived has two link-local or two ULA addresses, the latter in one /64 |
| PeerInput.DerivedNeverRejected | app/peer/service.py:270-277 | the re-validation of our derived address never rejects it |
| PeerInput.EndpointFixpoint | app/peer/validation.py:23-62 | a normalised endpoint normalises to itself |
| PeerInput.EndpointAccepted | app/peer/validation.py:23-62 | an endpoint is accepted exactly as its stripped text, if that is empty or printable ASCII up to 255 characters made of a host, the last colon and a port |
| PeerInput.KeyFixpoint | app/peer/validation.py:107-112 | a normalised key normalises to itself |
| PeerInput.MtuFixpoint | app/peer/validation.py:132-149 | an accepted MTU shown as text is read back as the same MTU |
| PeerInput.MtuAccepted | app/peer/validation.py:132-149 | an MTU is accepted exactly as the default for a blank field or as the number written, within 1280 and 9000 |
| PeerInput.SwitchFixpoint | app/peer/service.py:198-209 | the switch submitted as "1" or "0" is read back as it was |
| PeerInput.SwitchAccepted | app/peer/service.py:198-209 | a switch is read as on or off exactly for the words of either, in any case |
| PeerInput.PeerAddressKind | app/peer/service.py:256-268 | an accepted peer tunnel address is link-local or a ULA, given, taken from the dn42 address or derived |
| Runner.DeployWritesItsOwn | internal/runner/runner.go:337-399 | an applied deployment leaves exactly the two rendered files of its name, and no deployment touches another name |
| Runner.RemoveDeletesItsOwn | internal/runner/runner.go:401-441 | a removal deletes nothing but its two files, both when it succeeds |
| Runner.AppliedUnderReports | internal/runner/runner.go:337-399 | `applied` is false although files changed exactly when the WireGuard file was written, the BIRD file or its group failed, and a file written until then differed before |
| Runner.UnderReportedDeployment | internal/runner/runner.go:362-367 | counterexample: a deployment whose BIRD directory cannot be made leaves the WireGuard file and denies it |
| Runner.NodeRunner.WriteConfigFile | internal/runner/runner.go:544-566 | a file is replaced whole or not at all, and no temporary file is left |
| Runner.NodeRunner.DeployPeer | internal/runner/runner.go:337-399 | the statements of a deployment add up to its change of the file map |
| Runner.NodeRunner.RemovePeer | internal/runner/runner.go:401-441 | the statements of a removal add up to its change of the file map |
| FileSteps.EditProgress | internal/runner/runner.go:337-441 | between any two file-system operations each target file shows its full old or full new content |
| FileSteps.WriteProgress | internal/runner/runner.go:544-566 | the same for writing one file through a temporary one |
| NodeServer.SemaphoreIsExact | internal/api/server.go:97-125 | in every interleaving tokens equal the commands in flight, never exceed a positive cap, and busy is answered exactly at the cap |
| NodeServer.EditsAreSerial | internal/api/server.go:85-95 | concurrent deployments and removals leave the files that running the submitted edits one by one, in lock order, would leave, and every worker is answered for its own edit |
| NodeServer.FilesAreNeverPartial | internal/runner/runner.go:544-566 | at every moment each file but the temporary one shows full old or full new content |
| NodeServer.TokensStep | internal/api/server.go:97-125 | every step keeps the token count exact |
| NodeServer.FilesStep | internal/api/server.go:85-95 | every step keeps the files equal to the replayed history plus the holder's progress |
| Placeholder.RenderedHasNoPlaceholder | internal/runner/runner.go:443-452 | with a well-formed key no placeholder is left anywhere in the written WireGuard text, seams included |
| Placeholder.ReplaceKeepsGaps | internal/runner/runner.go:443-452 | all text between placeholders is kept in order |
| Placeholder.RenderedText | internal/runner/runner.go:443-452 | the written text is the deployed one with the key between its stretches, refused exactly when it has a placeholder and the node no key |
| Placeholder.NoneAt | internal/runner/runner.go:443-452 | no placeholder starts at any position of a filled text |
| Placeholder.TailReflects | internal/runner/runner.go:443-452 | a tail of the placeholder heads a filled text only if it headed the original |
| Placeholder.NewlineAddsNone | internal/runner/runner.go:362 | the final newline completes no placeholder |
| FrameCodec.DecodeWire | internal/backend/client.go:656-701 | every well-formed frame, masked or not and in any length form, is read back or refused for its own reason (RFC 6455 section 5.2) |
| FrameCodec.DecodeEncode | internal/backend/client.go:656-734 | what the writer writes the reader reads back, for any opcode, mask and payload up to 2^20 bytes |
| FrameCodec.DecodeOnlyFrames | internal/backend/client.go:656-701 | whatever the reader takes for a frame is a frame of the format, followed by the rest |
| FrameCodec.DecodeStable | internal/backend/client.go:656-701 | more input never changes a verdict other than "not enough input" |
| FrameCodec.StrictPrefixFails | internal/backend/client.go:656-701 | every strict prefix of a frame fails as unfinished |
| FrameCodec.DecodeStream | internal/backend/client.go:656-701 | a concatenation of frames decodes to exactly those frames in order |
| FrameCodec.WriterIsShortest | internal/backend/client.go:703-734 | the writer uses the shortest length form |
| FrameCodec.MaskedTwice | internal/backend/client.go:694-698 | masking is its own inverse (RFC 6455 section 5.3) |
| FrameCodec.MaskedIsXored | internal/backend/client.go:694-698 | bit by bit, byte i of a masked payload differs from byte i of the payload exactly where byte i mod 4 of the mask is set (RFC 6455 section 5.3) |
| FrameCodec.WireIsLaidOut | internal/backend/client.go:703-734 | a frame has the fin and opcode byte, the mask bit and length byte, the big-endian extended length, and the mask and masked payload, or the plain payload, where section 5.2 of RFC 6455 puts them |
| FrameCodec.DecodeConforming | internal/backend/client.go:656-701 | any bytes so laid out, masked or not and in any length form, are read as their opcode and payload, or refused as fragmented or too large |
| WsConn.PongsThenText | internal/backend/client.go:621-641 | behind any run of pings and pongs the first text payload is returned, one pong per ping sent in order with its payload |
| WsConn.PongsThenClose | internal/backend/client.go:621-641 | a close frame there ends the stream and is answered by one empty close frame, behind the pongs |
| WsConn.PongsThenOther | internal/backend/client.go:621-641 | any other frame there is refused by its opcode, and nothing more is sent |
| WsConn.ControlsFirst | internal/backend/client.go:621-641 | pings and pongs in front of any stream only add their pongs to what is sent |
| WsConn.ControlFramesOnly | internal/backend/client.go:621-641 | a stream ending before any text frame ends in its own read error, all pings answered |
| WsConn.Connection.ReadFrame | internal/backend/client.go:656-701 | reading piece by piece from the stream decodes its first frame |
| WsConn.Connection.WriteFrame | internal/backend/client.go:703-734 | writing appends exactly one encoded frame, under a mask of its own, behind the bytes already written |
| WsConn.Connection.FrameBytes | internal/backend/client.go:703-734 | the buffer filled byte by byte is the encoded frame, laid out and masked bit by bit as RFC 6455 says |
| WsConn.Connection.Unmask | internal/backend/client.go:694-698 | the buffer unmasked in place is the old one masked with the same key, bit by bit |
| WsConn.Connection.ReadJSON | internal/backend/client.go:621-641 | the message loop terminates on every finite stream with the outcome of the specification, and exactly its replies are on the wire behind the bytes already written |
| RateLimiter.SlidingWindowRateLimiter.Allow | app/lg/ratelimit.py:19-33 | with a non-decreasing clock the answer is the one a count over the whole history gives |
| RateLimiter.SlidingWindowRateLimiter.Evict | app/lg/ratelimit.py:26-28 | popping removes leading hits older than the cutoff and no other |
| RateLimiter.SlidingWindowRateLimiter.Prune | app/lg/ratelimit.py:35-41 | pruning drops exactly the idle buckets, and no future answer depends on them |
| RateLimiter.NoWindowExceedsLimit | app/lg/ratelimit.py:19-33 | no closed window of the configured length anywhere in a run holds more than the limit |
| RateLimiter.MeasureBucket | app/lg/ratelimit.py:26-30 | after eviction the queue length is the window count over the whole history |
| RateLimiter.EvictionKept | app/lg/ratelimit.py:23-30 | evicting keeps the limiter faithful to the history |
| RateLimiter.RecordingKept | app/lg/ratelimit.py:31-33 | recording an accepted hit keeps the limiter faithful to the history |
| RateLimiter.TimesOrdered | app/lg/ratelimit.py:23-31 | accepted hits of one client are in time order |
| ChunkBlocks.Chunk | app/bot/main.py:253-267 | the messages are an in-order split of the cut blocks, joined they give the blocks back, no split into single blocks or fitting groups has fewer, and only a lone cut block exceeds the limit |
| ChunkBlocks.MessagesJoinToBlocks | app/bot/main.py:253-267 | joining the messages gives back the blocks in order |
| ChunkBlocks.OnlyCutBlockExceeds | app/bot/main.py:258-259 | only a lone cut block exceeds the limit, by exactly the marker |
| ChunkBlocks.StaysAheadStep | app/bot/main.py:260-264 | greedy packing stays ahead of every alternative split, block by block |
| ChunkBlocks.SplitStep | app/bot/main.py:260-264 | packing one more block keeps a split of everything packed so far |
| Prefix.TwoAddressesDecide | internal/runner/runner.go:199-206 | within one family, away from IPv4-mapped space, testing two addresses decides inclusion of the whole prefix, both ways |
| Prefix.LastIsGreatest | internal/runner/runner.go:208-222 | the computed last address is the greatest of its prefix and belongs to it |
| Prefix.FamiliesStayApart | internal/runner/runner.go:199-206 | a range of one family never contains a prefix of the other |
| Prefix.MappedVerdict | internal/runner/runner.go:199-222 | for IPv4-mapped prefixes the verdict is right exactly when the first address is outside or the real last one inside |
| Prefix.MappedPrefixMisjudged | internal/runner/runner.go:199-222 | counterexample: the mapped form of 10.0.0.0/8 passes as part of 10.0.0.0/16 |
| Prefix.MappedTestsFirstOnly | internal/runner/runner.go:208-222 | for an IPv4-mapped prefix only the first address is ever looked at |
| Prefix.LastIP | internal/runner/runner.go:208-222 | the in-place loop sets every host bit |
| Prefix.ContainsPrefix | internal/runner/runner.go:199-206 | within one family the test says whether the whole prefix lies in the range (refusing where an end is IPv4-mapped), across families it says no, and for mapped prefixes it is right exactly as MappedVerdict says |
| Prefix.IsAllowedPrefix | internal/runner/runner.go:195-197 | with the ranges the program allows, a canonical target is refused exactly when it begins outside the IPv4-mapped addresses and ends among them |
| Prefix.ZerosStraddle | internal/runner/runner.go:195-222 | counterexample: ::/80 is such a target |

## Left out

- NodeHub.NodeHub.OpenRequest: futures and connections are named by ids, so sharing of Future objects between the table and the waiting coroutine is one entry, not an alias.
- NodeHub.NodeHub.Register: a registration whose database write raises simply never becomes ready; closing the superseded socket, close codes and logging are not modelled.
- NodeHub.NodeHub.TimedOut: cancellation of the calling task is not told apart from a timeout.
- EndToEnd.AnswersAreTheNodes: requests and replies are records, not JSON text; a node that invents malformed replies is covered by the hub's own results only.
- PeerService.PeerService.DeployPeerRequest: a crash between the two commits, and a command the node runs after its caller gave up on it, are not modelled.
- PeerService.PeerService.UpdatePeer: the session's object identity and the snapshots taken for the node calls are values; user ownership checks happen in the callers.
- DeployedRows.DeployedMeansHeld: the texts are parameters; the templates of app/peer/config.py:110-158 are not spelled out.
- PeerInput.ConfirmKeepsPreview: addresses arrive parsed, as numbers without scope ids; IP literal and host-name syntax are parameters, and text is ASCII.
- Runner.NodeRunner.DeployPeer: file modes and ownership are success or failure; `wg-quick` and `birdc` likewise. Symbolic links, and a relative path naming the same file as an absolute one, are not modelled.
- WsConn.Connection.WriteFrame: failing writes and a failing random source end the connection and are not modelled.
- RateLimiter.SlidingWindowRateLimiter.Allow: calls are ordered in time; a clock read before the lock is taken by another thread is not modelled.
- The bot's dialogue, the node's command-status cache, metrics, looking-glass commands and their output.
- TLS, dialling, the HTTP upgrade, JSON encoding, sessions, login and signature checks.
- HTTP routes, templates and browser scripts, beyond the confirmation form's field values.
- Storing node status and public keys in the database; fetching a node's key when it is edited.
- The fallback event loop of synchronous callers and the worker threads database writes run on.
