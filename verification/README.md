# Verified model of the launcher backend

This project models the parts of the backend whose correctness depends on more than one
function at a time, and proves what each of them keeps over whole runs. `dafny verify
dfyconfig.toml` checks it.

Six parts, each a set of modules:

- **World admission and relay rendezvous** (`NetworkTables`, `RelayHubs`, `RelayProtocol`,
  `RelaySockets`, `RelaySlots`, `RelayRuns`, `RelayWitnesses`, `RelayServers`, `RelayLaws`,
  `WorldLaws`): world and relay rows, the in-memory hub that pairs one host socket with one guest
  socket, and the connection handlers as program counters that interleave at every SQL statement
  and every hub lock, with world create/update/close, ticket cleanup and restart as further steps.
- **Invites and join requests** (`Admissions`, `AdmissionRuns`, `AdmissionDesks`, `AdmissionLaws`):
  the two state machines, tickets and relay rows, with any number of handlers in flight while
  worlds, friendships, members and presence change arbitrarily around them. `GuestJourneys` runs this
  machine and the relay's together, on the same world, relay and ticket rows; `JourneyLaws` follows
  a guest from the accept to the tunnel.
- **The per-IP sliding-window limiter** (`RateLimiters`, `LimiterRuns`, `LimiterReference`,
  `LimiterAddresses`, `LimiterLaws`): the buckets as they are changed in place, against a reference
  that keeps every admitted hit.
- **One build's files** (`LikePatterns`, `Paths`, `BundleTree`, `BundleAlignment`, `BundleMoves`,
  `BundleBatches`, `BundleWitnesses`, `BundleLuck`, `BundleSteps`, `BundleContents`,
  `BundleIngest`, `BundleExtracted`, `BundleRuns`, `BundleScan`, `BundleUpsert`, `BundleManifest`,
  `BuildStores`, `PathLaws`, `TreeLaws`, `IngestLaws`, `ManifestLaws`): artifact rows, the tree on
  disk and the manifest under uploads, folders, deletes, moves and ZIP ingest. Every filesystem
  call may fail; how far it gets is a parameter.
- **The catalog** (`CatalogLinks`, `CatalogLinkRuns`, `CatalogStores`, `CatalogLoader`,
  `CatalogLaws`, `LoaderLaws`): the link between a client and the bundle it owns, and the batch
  relation loader.
- **Two smaller ones**: the admin file browser (`FileTree`, `FileTreeLaws`), and the base64 normaliser
  (`Base64`, `Base64Laws`, after section 4 of RFC 4648). `Texts` and `Wrappers` are shared helpers.

Where the code changes rows, maps or buffers in place there is a class or a method with the same
statements, proved equal to a specification function; the theorems are about those functions,
over every run of steps. The modules named `...Laws` say what each operation does, exactly when it
goes through and what it answers otherwise, on requests, rows, files and addresses alone.

## What the code does where its comments say otherwise

- `remove_waiting`'s "anything still here is ours" (`crates/network/src/relay.rs`) holds exactly
  when the host has connected to the relay id at most once (`RemoveWaitingExactlyWhenOwn`).
- Live tunnels exceed any cap when a world is re-created between admissions
  (`RecreatedWorldsExceedAnyCap`), by at most one capful for each time its host re-creates or closes
  it (`SlotsBoundedByResets`, met by `ResetBoundIsTight`); on runs without such a reset they do not
  (`PlayerSlotsAreExact`).
- The limiter's fallback for a clock younger than the window makes it forget a key's hits at every
  call of that first window (`AnswersAreForgetful`). So such a call is always admitted, which is the
  log's answer exactly if the key has made fewer calls than the budget since it was last evicted
  (`BeforeFirstWindow`). What was forgotten can also be missed later: calls at 8, 9 and 10 on a
  window of 10 and a budget of 2 are all admitted (`ForgottenAfterFirstWindow`). A run that never
  evicts the key answers as the reference exactly if, while a forgotten call is still in the window,
  fewer calls than the budget are (`AnswersRefineReferenceExactly`).
- A batch move is called all-or-nothing. Its rows are; the renames are not. A batch that fails,
  whatever was selected, leaves rows and disk aligned exactly when nothing had moved yet
  (`FailedBatchAlignedExactly`), and one can fail after a rename though no call fails
  (`FailedBatchCanMisalign`). A batch that completes may misalign them as well
  (`CompletedBatchCanMisalign`), but only if a file is picked again, or after a folder it lies in
  (`BatchKeepsAligned`); each single turn keeps them aligned exactly when it takes along every row
  below the entry (`MoveAlignedExactly`). A later turn can put a row that lost its file over an
  untracked one, so that the build ends aligned all the same (`CompletedBatchCanRealign`).
- An ingest that fails keeps its rows while the files are wiped. Rows and disk are then aligned
  exactly when the path of every row is among what a failed wipe left or, after a whole wipe, is
  brought as what it was by the entries that go through or made by the one that stops
  (`FailedIngestAlignedExactly`). Which entries go through is read off their names, declared sizes
  and paths, and what the filesystem refuses (`ExtractedExactly`). When an entry is refused, the
  entries before it must bring every row (`RefusedAlignedExactly`); when nothing is unpacked, there
  must be no row (`WipedAlignedExactly`). Rows can survive a failure (`FailedIngestCanStayAligned`).
- A directory walk is said to be unable to name a path twice; it does exactly when two names on
  disk differ only in `\` against `/` (`ScanIsDistinctExactly`), and there are such trees
  (`BackslashIsScannedTwice`). Extraction never writes such names.
- A bundle is called 1:1 with its client, but two clients may ask for the same slug
  (`ClientsCanShare`); deleting one then takes the bundle from the other
  (`DeleteUnlinksSharersExactly`).
- `bulk_delete` says that `deleted` counts the rows removed, and reports the entries it resolved.
  The two agree exactly when ids are sent again as often as rows go along with a picked folder
  (`BulkCountExactly`).
- Base64 text such as `T=` or `TR` is accepted and does not decode; exactly which accepted texts
  decode is `AcceptedDecodesExactly`. The decoder is a strict one: bits of the last symbol that
  belong to no byte must be zero (section 3.5 of RFC 4648).

## Assumptions

- SQL statements succeed, and the partial unique indexes and `ON DELETE SET NULL` foreign keys act
  as the code's comments state them. World and user rows are never deleted.
- Checking and consuming a guest's ticket is one step, though the code uses two statements. So are
  the read and the transaction of a world PATCH, the two statements of the restart
  reconciliation, and each transaction that accepts an invite or a join request.
- The 90 s rendezvous timeout, the end of a pipe and every race between handlers are
  nondeterministic. Limiter instants are integers and never decrease.
- `stat` calls answer truthfully, except in the directory walk, where listings and reads may fail.
- Admin operations on one build do not overlap one another.

## Model

| member | source | states |
|---|---|---|
| NetworkTables.NetworkStore.Create | crates/network/src/worlds.rs:61-85 | creating a world inserts an open one, or resets size and player count of the host's open one |
| WorldLaws.CreatedWorld | crates/network/src/worlds.rs:61-85 | after a create the host has an open world of the size asked for, 1 or the cap beyond the bounds, empty; its policy is kept or the default, and no other row changes |
| NetworkTables.NetworkStore.TryAdmitPlayer | crates/network/src/relay.rs:223-242 | the conditional increment admits exactly when the world is open and below its size, and counts the player then only |
| NetworkTables.NetworkStore.ReleasePlayer | crates/network/src/relay.rs:244-254 | the decrement never goes below zero |
| NetworkTables.NetworkStore.MarkRelayActive | crates/network/src/relay.rs:256-266 | a row that is closed is not made active |
| NetworkTables.NetworkStore.MarkRelayClosed | crates/network/src/relay.rs:268-278 | the row reads closed afterwards |
| NetworkTables.NetworkStore.CleanupClosedWorld | crates/network/src/worlds.rs:224-258 | all relay rows of a closed world are closed and its player count is zero |
| NetworkTables.NetworkStore.Close | crates/network/src/worlds.rs:191-222 | closing a world closes its relay rows with it |
| NetworkTables.NetworkStore.Update | crates/network/src/worlds.rs:98-188 | a PATCH changes what it names, runs the cleanup exactly when it takes an open world to closed, and is refused when it would open a second world |
| WorldLaws.UpdatedWorld | crates/network/src/worlds.rs:98-188 | a PATCH is refused exactly when it would open a second world; otherwise what is named is set, the size under the same bounds, the rest stays, and closing empties the world and closes its relay rows only |
| NetworkTables.NetworkStore.ReconcileAfterRestart | crates/core/src/db.rs:22-39 | after a restart every relay row is closed and open worlds count nobody |
| RelayHubs.RelayHub.Park | crates/core/src/realtime.rs:184-199 | parking never displaces a waiter: a taken id hands the newcomer back |
| RelayHubs.RelayHub.Take | crates/core/src/realtime.rs:203-213 | only a waiter of the opposite role is handed out, and then it is gone from the hub |
| RelayHubs.RelayHub.RemoveWaiting | crates/core/src/realtime.rs:216-225 | whoever waits is removed, whose socket it is does not matter |
| RelayHubs.RelayHub.IncrActive | crates/core/src/realtime.rs:238-240 | the active counter grows by one, wrapping |
| RelayHubs.RelayHub.DecrActive | crates/core/src/realtime.rs:242-245 | the active counter falls by one, wrapping |
| RelayServers.RelayServer.Connect | crates/network/src/relay.rs:47-101 | a connection is accepted as the step relation says, spending the guest's ticket |
| RelayLaws.ConnectsExactly | crates/network/src/relay.rs:47-143 | a connection is accepted exactly if the row is there and not closed and a guest's ticket there and unspent; the ticket is spent and nothing else changes |
| RelayLaws.NobodyEntersAClosedRelay | crates/network/src/relay.rs:72-74 | over every run, nobody connects to a closed relay |
| RelayLaws.NobodyEntersAfterTheEnd | crates/network/src/worlds.rs:224-258 | over every run, nobody connects to a relay once its world was closed, by a DELETE or a PATCH, or the process restarted |
| RelayLaws.MintsExactly | crates/network/src/join.rs:98-158 | a relay row and its ticket can be minted exactly when both are new; the row is pending, the ticket unspent, nothing else changes |
| RelayLaws.TicketsDeleted | crates/network/src/cleanup.rs:68-76 | deleting tickets takes each from its relay row, leaves every other row as it is, and shuts out exactly their guests |
| RelayServers.RelayServer.StepSecondParty | crates/network/src/relay.rs:145-217 | each statement of a party that finds a peer is the step relation's |
| RelayLaws.FinishedTakersHaveClosed | crates/network/src/relay.rs:153-194 | over every run, once a handler that had taken a peer has finished, refused or piped, its relay row is closed |
| RelayLaws.TunnelOpens | crates/network/src/relay.rs:153-182 | whoever comes second, host or guest, to an open world with room pipes with the waiter: one player and one tunnel more, the row active, the ticket of a guest spent, nothing else |
| RelayLaws.FullWorldRefuses | crates/network/src/relay.rs:158-169 | a guest that takes the host of a full world: both sockets dropped, the row closed, world and counter as before |
| RelayLaws.TunnelEnds | crates/network/src/relay.rs:171-194 | a tunnel that ends drops both sockets, gives slot and count back and closes its row, nothing else |
| RelayServers.RelayServer.StepFirstParty | crates/network/src/relay.rs:145-217 | each statement of a party that parks is the step relation's |
| RelayLaws.TakesExactly | crates/core/src/realtime.rs:203-213 | a connection takes the parked socket exactly when that is of the other role, and otherwise goes to park and leaves the hub as it is |
| RelayLaws.ParksExactly | crates/network/src/relay.rs:196-210 | a connection waits exactly if nobody waits there; else it is dropped and the waiter goes on waiting |
| RelayLaws.WaitsEnd | crates/network/src/relay.rs:212-216 | a wait that ends clears the slot, drops whatever waits there and nothing else, and is through |
| RelayLaws.FinishedStays | crates/network/src/relay.rs:145-217 | over every run, a connection that has finished takes no further step |
| RelaySockets.SocketsKept | crates/network/src/relay.rs:145-217 | every step keeps the socket invariant: parked, held, piped and dropped sockets, and who may hold whom |
| RelaySockets.RendezvousConservation | crates/core/src/realtime.rs:184-244 | after any run every socket is in exactly one place: held by its handler, parked, in a peer's hands or dropped |
| RelaySockets.TunnelsJoinOnePair | crates/network/src/relay.rs:153-217 | every tunnel joins one host and one guest of the same relay id |
| RelaySlots.RowsKept | crates/network/src/relay.rs:145-277 | every step keeps the row invariant: active rows have a live handler and an open world, player counts are bounded by slot holders, the hub counter equals running pipes |
| RelayRuns.ActiveRelaysAreLive | crates/network/src/relay.rs:145-277 | after any run a relay row reads active only while a handler is between its two marks and its world is open |
| RelayRuns.ClosedRelayStaysClosed | crates/network/src/worlds.rs:224-258 | closed is final for a relay row, over every run |
| RelayRuns.PlayerSlotBounds | crates/network/src/relay.rs:223-254 | after any run a world's player count is at most its slot holders and the cap, and zero when closed |
| RelayRuns.SlotsBoundedByResets | crates/network/src/worlds.rs:61-85 | after any run, restarts included, a world's slot holders are at most the cap times one plus its resets, and exceed its player count by at most the latter part |
| RelayWitnesses.ResetBoundIsTight | crates/network/src/worlds.rs:66-76 | for every cap and every number of resets, a run with exactly that many and one capful of tunnels for each and one more |
| RelayRuns.PlayerSlotsAreExact | crates/network/src/relay.rs:223-254 | corollary: on runs that never reset the world the count equals the slot holders, so live tunnels never exceed the cap |
| WorldLaws.TunnelsWithinTheSizeAsked | crates/network/src/worlds.rs:61-85 | over every run, a world opened for so many players never has more tunnels, until its host re-creates, closes or resizes it |
| RelayRuns.TunnelCounterNeverUnderflows | crates/core/src/realtime.rs:238-245 | with fewer connections than the counter's range, it equals the number of counted pipes and is never decremented at zero |
| RelayRuns.GuestConnectsAtMostOnce | crates/network/src/relay.rs:102-143 | a relay id sees at most one guest connection, over every run |
| RelayRuns.RemoveWaitingIsOwn | crates/network/src/relay.rs:196-217 | with at most one host connection to the id, a handler removes its own socket or nothing |
| RelayRuns.HostsHaveOneOpenWorld | crates/network/src/worlds.rs:61-85 | corollary of the unique index, which the create and the PATCH carry: no host ever has two open worlds, over every run |
| RelayWitnesses.RecreatedWorldsExceedAnyCap | crates/network/src/worlds.rs:66-76 | corollary: for every cap and every n a run exists with n live tunnels in one world |
| RelayWitnesses.RemoveWaitingExactlyWhenOwn | crates/network/src/relay.rs:196-217 | a foreign removal is possible exactly when the host has connected to the id more than once |
| RateLimiters.DropExpired | crates/server/src/ratelimit.rs:111-137 | the pop loop leaves exactly the hits after the cutoff |
| RateLimiters.Buckets.SweepIfDue | crates/server/src/ratelimit.rs:188-199 | at most once a window, exactly the buckets with no live hit go |
| LimiterLaws.SweepsExactly | crates/server/src/ratelimit.rs:188-199 | a sweep, first of all and then once a window, drops exactly the keys with no hit in the window |
| RateLimiters.Buckets.FindStalest | crates/server/src/ratelimit.rs:205-219 | the key found precedes every other in the (newest hit, key) order |
| RateLimiters.Buckets.EvictStalest | crates/server/src/ratelimit.rs:205-219 | the batch that goes is the stalest: every survivor is more recent than every evicted key |
| LimiterLaws.EvictsExactly | crates/server/src/ratelimit.rs:205-219 | only a call for an unknown key in a map of 100 000 evicts, 10 000 keys, each staler than every one that stays |
| RateLimiters.RateLimiter.CheckAt | crates/server/src/ratelimit.rs:111-137 | sweep, eviction at the ceiling for an unknown key, answer and recorded hit, in that order |
| RateLimiters.RateLimiter.CheckUnresolvedAt | crates/server/src/ratelimit.rs:146-163 | unresolved addresses share one bucket under the same rule |
| LimiterRuns.AnswerMatchesLog | crates/server/src/ratelimit.rs:111-137 | a call is admitted exactly when fewer than the allowed hits of its key's log since the last eviction, less what the first window of the clock made the code forget, lie in the trailing window |
| LimiterRuns.AnswersAreForgetful | crates/server/src/ratelimit.rs:111-137 | over every run that never evicts a key, its answers depend on its own call times alone: those of a log that every call in the first window of the clock empties |
| LimiterReference.AnswersRefineReferenceExactly | crates/server/src/ratelimit.rs:111-137 | a run that never evicts a key answers it as a reference that keeps every admitted hit exactly if, while a call forgotten in the first window is still in the window, fewer calls than the budget are |
| LimiterReference.AnswersRefineReference | crates/server/src/ratelimit.rs:111-137 | corollary: so it does whenever at most one call of the key comes in the first window of the clock |
| LimiterRuns.KeysAreIndependent | crates/server/src/ratelimit.rs:111-137 | any two runs that never evict a key and call it at the same times answer it alike, whatever other keys do |
| LimiterAddresses.ClientsShareOneBudget | crates/server/src/ratelimit.rs:222-237 | over every run that never evicts a client, one V4 address or all V6 addresses of one /64, it is answered as one budget for all its addresses and of nobody else's calls |
| LimiterAddresses.ClientsAreIndependent | crates/server/src/ratelimit.rs:222-237 | two runs in which a client calls at the same times, from whichever of its addresses, answer it alike |
| LimiterReference.BeforeFirstWindow | crates/server/src/ratelimit.rs:111-122 | after any run, a call in the first window of the clock is admitted; that is the log's answer exactly if the key has made fewer calls than the budget since its last eviction |
| LimiterReference.FirstWindowDisagrees | crates/server/src/ratelimit.rs:111-122 | a run of two calls in the first window that are both admitted with a budget of one |
| LimiterReference.ForgottenAfterFirstWindow | crates/server/src/ratelimit.rs:111-137 | a run whose answers agree with the reference in the first window and part from it after |
| LimiterReference.SharedRefinesReferenceExactly | crates/server/src/ratelimit.rs:146-163 | the bucket that unresolved addresses share answers as the reference on their own hits exactly under the same condition |
| LimiterRuns.UntrackedKeyIsAdmitted | crates/server/src/ratelimit.rs:124-136 | a key that is not in the map is admitted |
| LimiterRuns.HitsPerEviction | crates/server/src/ratelimit.rs:124-136 | in any stretch of at most a window the hits of a history that come after the first window of the clock are bounded by the budget times one plus the evictions in it |
| LimiterRuns.AdmissionsUnderEviction | crates/server/src/ratelimit.rs:205-219 | after any run, a key was admitted at most the budget times one plus its evictions in any stretch of at most a window that begins after the first window of the clock, and in any window at all if no call came in the first |
| LimiterAddresses.ClientBudget | crates/server/src/ratelimit.rs:111-137 | over every run, all addresses of a client together are admitted at most the budget times one plus the client's evictions in any stretch of at most a window after the first window of the clock |
| LimiterRuns.MemoryIsBounded | crates/server/src/ratelimit.rs:52-56 | over every run the map stays within its ceiling, and size plus batch times evictions is at most insertions, at most calls |
| AdmissionDesks.AdmissionDesk.IssueTicketAndRelay | crates/network/src/join.rs:98-168 | ticket and pending relay row are written together |
| AdmissionLaws.IssuesTicketExactly | crates/network/src/join.rs:172-200 | a ticket goes to a friend of a joinable host whose open world has room, and to nobody else |
| AdmissionDesks.AdmissionDesk.AcceptInvitation | crates/network/src/invites.rs:313-388 | the accept transaction's checks and writes are the step relation's |
| AdmissionLaws.AcceptsInviteExactly | crates/network/src/invites.rs:313-374 | an accept goes through exactly if the caller is the invitee of a pending, unlapsed invite, its world open and not full, and its route stands; then invite, ticket and relay row are written, otherwise nothing |
| AdmissionLaws.InviteRefusals | crates/network/src/invites.rs:313-360 | which error a refused accept answers |
| AdmissionDesks.AdmissionDesk.AcceptJoinRequest | crates/network/src/join.rs:425-515 | the accept transaction's checks and writes are the step relation's |
| AdmissionLaws.AcceptsRequestExactly | crates/network/src/join.rs:425-491 | the same for a host who accepts a join request of a friend, or of a friend of someone in a world that allows it |
| AdmissionLaws.RequestRefusals | crates/network/src/join.rs:425-470 | which error a refused accept of a join request answers |
| AdmissionDesks.AdmissionDesk.UpdateInvite | crates/network/src/invites.rs:391-418 | a guarded update changes the row only from one of the named statuses, and says whether it did |
| AdmissionDesks.AdmissionDesk.WriteInvite | crates/network/src/invites.rs:391-482 | decline, approve and revoke write as the step relation says |
| AdmissionLaws.AnswersInviteExactly | crates/network/src/invites.rs:391-482 | who may decline, approve and revoke which invite, and which error the others get |
| AdmissionLaws.WritesInviteExactly | crates/network/src/invites.rs:391-482 | whatever happened since the read, the write takes effect exactly if the row is still in a status it may leave |
| AdmissionDesks.AdmissionDesk.InsertInviteRow | crates/network/src/invites.rs:200-240 | lapsed rows expire, then the insert conflicts exactly when an active row is left |
| AdmissionLaws.CreatesInviteExactly | crates/network/src/invites.rs:147-200 | exactly who may invite whom, with which status, and which error the others get |
| AdmissionLaws.CreatesRequestExactly | crates/network/src/join.rs:307-345 | exactly who may ask to join, and which error the others get |
| AdmissionDesks.AdmissionDesk.CleanupRows | crates/network/src/cleanup.rs:48-114 | the hourly pass, statement by statement, each with its own clock reading: lapsed rows expire, spent tickets go, aged terminal rows go |
| AdmissionDesks.CleanupIsARun | crates/network/src/cleanup.rs:48-114 | the pass is a run of the step relation, so every whole-run property holds across it |
| AdmissionLaws.SweepExpiresExactly | crates/network/src/cleanup.rs:48-70 | exactly which rows the sweep expires |
| AdmissionLaws.SweepDeletesExactly | crates/network/src/cleanup.rs:48-96 | exactly which rows the sweep deletes |
| AdmissionDesks.DeleteOldest | crates/network/src/cleanup.rs:127-146 | one chunk deletes aged events only, at most the chunk size, and fewer only when none is left |
| AdmissionDesks.DeleteAgedInChunks | crates/network/src/cleanup.rs:127-155 | the drain loop ends with every aged event gone, nothing else, and the exact total |
| AdmissionRuns.InviteMoves | crates/network/src/invites.rs:313-482 | every step that changes an invite lowers its rank, and reaches accepted from pending only |
| AdmissionRuns.RequestMoves | crates/network/src/join.rs:425-551 | every step that changes a join request lowers its rank, and reaches accepted from pending only |
| AdmissionRuns.InviteLifecycle | crates/network/src/invites.rs:313-482 | over every run the rank never rises and a terminal status stays while the row does |
| AdmissionRuns.InviteGone | crates/network/src/cleanup.rs:36-96 | an invite that was deleted never comes back |
| AdmissionRuns.RequestLifecycle | crates/network/src/join.rs:346-551 | over every run the rank never rises and a terminal status stays while the row does |
| AdmissionRuns.RequestGone | crates/network/src/cleanup.rs:36-96 | a join request that was deleted never comes back |
| AdmissionRuns.ExactlyOnceAdmission | crates/network/src/join.rs:98-168 | after any run each invite or request has minted at most one relay row and ticket, and has minted exactly if it is accepted |
| AdmissionRuns.MintsExactlyWhenAccepted | crates/network/src/invites.rs:313-374 | a step mints for a row exactly when it takes that row to accepted |
| AdmissionRuns.InviteAdmissionGates | crates/network/src/invites.rs:313-374 | read off the accept step: at the minting commit the invite was pending and unlapsed, the world open and not full, and a friend-of-friend route still stood |
| AdmissionRuns.RequestAdmissionGates | crates/network/src/join.rs:425-491 | read off the accept step: at the minting commit the request was pending and unlapsed, the caller its host, the world open and not full, and a direct or policy-allowed friendship route still stood |
| AdmissionRuns.OneActiveRowPerSlot | crates/network/src/invites.rs:200-240 | corollary of the partial unique indexes: at most one active invite per world and invitee and one pending request per world and requester, after any run |
| AdmissionRuns.InviteConflictsExactlyWhenUnlapsed | crates/network/src/invites.rs:200-240 | with one clock reading the insert conflicts exactly when an unlapsed active invite exists |
| AdmissionRuns.RequestConflictsExactlyWhenUnlapsed | crates/network/src/join.rs:346-386 | with one clock reading the insert conflicts exactly when an unlapsed pending request exists |
| GuestJourneys.MirrorIsEnabled | crates/network/src/join.rs:98-168 | the relay's tables take whatever the desk may write: fresh ids there are fresh here |
| GuestJourneys.OneGuestPerAdmission | crates/network/src/relay.rs:102-143 | however both machines interleave, an invite or join request lets in at most one guest connection, and none unless it is accepted |
| GuestJourneys.EveryGuestWasAdmitted | crates/network/src/relay.rs:47-143 | every guest connection stands on a relay row the desk minted, for its world, and on a ticket no other guest connection stands on |
| GuestJourneys.AcceptFindsAFreeSlot | crates/network/src/join.rs:466-470 | an accept that mints finds a free slot by the very test that the relay makes when the guest comes |
| JourneyLaws.AcceptedInviteeGetsIn | crates/network/src/invites.rs:313-374 | from any state a run can reach: an acceptable invite is accepted, host and guest connect, and the guest pipes into the world: one player and one tunnel more, the row active, the ticket spent |
| JourneyLaws.AcceptedRequesterGetsIn | crates/network/src/join.rs:425-491 | the same for a join request that its host accepts |
| LikePatterns.EscapeLikePattern | crates/core/src/models.rs:199-208 | the loop escapes each metacharacter |
| LikePatterns.EscapesExactly | crates/core/src/models.rs:199-208 | exactly backslash, percent and underscore get a backslash before them, the rest stays as it is |
| LikePatterns.EscapedIsLiteral | crates/core/src/models.rs:195-208 | an escaped needle matches itself and nothing else |
| LikePatterns.WildcardsAre | crates/core/src/models.rs:195-208 | an underscore stands for one character, percent for any string, an escaped character for itself |
| LikePatterns.EscapedPrefixIsExact | crates/bundles/src/repo.rs:380-439 | escaped prefix and percent select exactly the strings that start with it |
| LikePatterns.EscapedContainsIsExact | crates/network/src/users.rs:173 | percent, escaped needle, percent select exactly the strings that contain it |
| Paths.NormalizeRelativePath | crates/bundles/src/storage.rs:80-114 | the component loop computes the normal form or the refusal |
| Paths.NormalizedIsNormal | crates/bundles/src/storage.rs:80-114 | whatever is accepted has no empty, dot or dot-dot segment and no backslash, and normalising it again changes nothing |
| PathLaws.EmptyAndDotVanish | crates/bundles/src/storage.rs:80-114 | empty and dot segments make no difference (nor at the ends, nor backslash for slash, in the lemmas beside it) |
| PathLaws.DotsAreRefused | crates/bundles/src/storage.rs:80-114 | a segment `..` anywhere in a relative path is refused |
| PathLaws.NameAndCategory | crates/bundles/src/storage.rs:119-128 | the name is what follows the last slash, the category what precedes the first |
| Paths.SubtreeSelectionIsExact | crates/bundles/src/repo.rs:380-439 | the SQL subtree selection picks exactly what lies below the folder |
| Paths.UnderIsSegmentPrefix | crates/bundles/src/storage.rs:119-128 | lying below a folder is having its segments as a strict prefix |
| BuildStores.BuildStore.UpsertArtifact | crates/bundles/src/repo.rs:217-255 | the upsert by path leaves `download_once` of an existing row alone |
| BuildStores.BuildStore.Upload | crates/bundles/src/admin.rs:389-451 | folders, rename, hash and row in this order, stopping where a call fails |
| TreeLaws.UploadsExactly | crates/bundles/src/admin.rs:389-451 | exactly when an upload completes, and what is on disk wherever it stops |
| TreeLaws.UploadWritesItsRow | crates/bundles/src/admin.rs:430-447 | the row a completed upload writes, and that no other changes |
| BuildStores.BuildStore.CreateFolder | crates/bundles/src/admin.rs:489-532 | a row for the folder and every ancestor |
| TreeLaws.CreatesFolderExactly | crates/bundles/src/admin.rs:489-532 | exactly when creating a folder is refused or fails, and which folders are made |
| TreeLaws.CreatedFolderRows | crates/bundles/src/admin.rs:489-532 | the folder and every one above it have a row, kept or new, and no other row changes |
| BuildStores.BuildStore.DeleteEntryRows | crates/bundles/src/admin.rs:563-573 | the row and, for a folder, everything the escaped prefix selects |
| BuildStores.BuildStore.DeleteFile | crates/bundles/src/admin.rs:538-559 | rows first, then whatever the unlink takes |
| TreeLaws.DeletesExactly | crates/bundles/src/admin.rs:538-573 | exactly which rows and files a delete takes |
| TreeLaws.BulkDeletesExactly | crates/bundles/src/admin.rs:795-834 | a bulk delete of nothing is refused; any other takes exactly the rows sent for, those below a folder among them, and what the unlinks took |
| BuildStores.BuildStore.BulkDelete | crates/bundles/src/admin.rs:795-834 | a foreign id is refused before anything is touched; all rows of all entries go first, then one unlink after the other; the number of entries is reported |
| BuildStores.BuildStore.Rehash | crates/bundles/src/admin.rs:764-788 | the row takes the hash of the bytes at its path |
| BuildStores.BuildStore.RewritePaths | crates/bundles/src/repo.rs:470-508 | the row loop of a subtree move, with paths unique after every update |
| TreeLaws.RowsMoveExactly | crates/bundles/src/repo.rs:470-508 | each moved row's path continues the target as it continued the source, with that path's name and category; nothing else of any row changes |
| BuildStores.BuildStore.MoveSubtree | crates/bundles/src/repo.rs:470-526 | rows first, rename last |
| TreeLaws.SubtreeMovesExactly | crates/bundles/src/repo.rs:470-526 | exactly when the disk half goes through, and rows and files either way |
| TreeLaws.RenameMoves | crates/bundles/src/repo.rs:510-524 | what stood at and below the source stands below the target, and the rest where it was |
| BuildStores.BuildStore.ApplyMove | crates/bundles/src/admin.rs:731-761 | guards, conflict checks and move, rows rolled back on failure |
| TreeLaws.MoveIsRefusedExactly | crates/bundles/src/admin.rs:690-761 | exactly which rename or move is refused, with which error |
| BuildStores.BuildStore.ResolveMoves | crates/bundles/src/admin.rs:644-656 | every id is resolved and validated before anything moves |
| TreeLaws.ResolvesExactly | crates/bundles/src/admin.rs:644-656 | for which id a batch is refused before anything moves, and with which error |
| BuildStores.BuildStore.MoveFiles | crates/bundles/src/admin.rs:638-674 | the turns of a batch, rows rolled back on failure and renames not |
| TreeLaws.TurnsExactly | crates/bundles/src/admin.rs:657-672 | a turn looks for the row at the entry's old path, and conflicts when the destination is taken |
| BuildStores.BuildStore.IngestArchive | crates/bundles/src/admin.rs:274-304 | wipe, extract, scan, upsert: what is on disk wherever it stops, exactly which error, rows unchanged then and aligned exactly if every path survives, and the ingested rows of all the walk could see otherwise |
| BundleAlignment.UpsertWritesOneRow | crates/bundles/src/repo.rs:217-255 | an upsert changes one row: the one at the path, or a new one |
| BundleAlignment.UploadKeepsAligned | crates/bundles/src/admin.rs:389-451 | an upload keeps every row with a disk node of its kind, wherever it fails |
| BundleAlignment.FoldersKeepAligned | crates/bundles/src/admin.rs:489-532 | creating a folder does too |
| BundleAlignment.DeleteKeepsAligned | crates/bundles/src/admin.rs:538-590 | deleting does too, however little the unlink removes |
| BundleAlignment.AllRowsDeletedAre | crates/bundles/src/admin.rs:795-834 | a bulk delete leaves exactly the rows no entry covers |
| BundleAlignment.BulkDeleteKeepsAligned | crates/bundles/src/admin.rs:795-834 | so does a bulk delete, with nested and repeated entries |
| BundleAlignment.BulkCountExactly | crates/bundles/src/admin.rs:788-834 | the reported count is that of the rows removed exactly when ids are sent again as often as unpicked rows lie below a picked folder |
| BundleMoves.PathsUniqueMidway | crates/bundles/src/repo.rs:470-508 | after each row update of a legal move, in any order, no two rows share a path |
| BundleMoves.MoveRewritesTheSubtree | crates/bundles/src/repo.rs:470-508 | exactly the entry and its descendants move, keeping id, size, hash, kind and `download_once` |
| BundleMoves.MoveBackRestores | crates/bundles/src/repo.rs:470-508 | moving back is legal and restores every row |
| BundleMoves.RenameBackRestores | crates/bundles/src/repo.rs:510-524 | the rename that undoes a rename is possible and gives the tree back |
| BundleMoves.MoveIsReversible | crates/bundles/src/admin.rs:731-761 | a completed rename or move can be undone by the same handler, rows and tree alike |
| BundleMoves.MoveAlignedExactly | crates/bundles/src/repo.rs:470-526 | a completed subtree move keeps rows and disk aligned exactly when it takes along every row below the entry |
| BundleMoves.MoveKeepsAligned | crates/bundles/src/admin.rs:731-761 | rename and single move keep them aligned, wherever they fail |
| BundleBatches.BatchHasOneTarget | crates/bundles/src/admin.rs:678-686 | all entries of a batch land in the same folder |
| BundleBatches.BatchKeepsAligned | crates/bundles/src/admin.rs:638-674 | a completed batch keeps rows and disk aligned when no file is picked again, or after a folder it lies in |
| BundleBatches.AlignedThroughoutExactly | crates/bundles/src/admin.rs:638-674 | any completed batch keeps them aligned after every turn exactly when, going by the paths before the batch, no turn leads a row below the old path of a file still to move |
| BundleBatches.FailedBatchAlignedExactly | crates/bundles/src/admin.rs:638-674 | a failed batch, whatever was selected, leaves them aligned exactly when it was refused or its first turn failed |
| BundleWitnesses.NestedBatchMisaligns | crates/bundles/src/admin.rs:638-674 | how a file picked after a folder it lies in, with every call succeeding, leaves a row without its file |
| BundleWitnesses.CompletedBatchCanMisalign | crates/bundles/src/admin.rs:638-674 | a concrete build and selection on which it does |
| BundleWitnesses.FailedBatchCanMisalign | crates/bundles/src/admin.rs:638-674 | a build and selection whose batch fails after a rename though no call fails |
| BundleLuck.CompletedBatchCanRealign | crates/bundles/src/admin.rs:638-674 | a build and selection whose third turn parts a row from its file and whose last puts it over an untracked one: aligned at the end, not throughout |
| BundleSteps.StepKeepsNormal | crates/bundles/src/storage.rs:80-114 | every admin operation keeps every row path normal |
| BundleSteps.StepKeepsAligned | crates/bundles/src/admin.rs:389-834 | every admin operation admitted to a run keeps rows and disk aligned |
| BundleRuns.RunsKeepAligned | crates/bundles/src/admin.rs:274-834 | over every run of admin operations and ingests each row has a disk node of its kind, a unique normal path, and that path's name and category; a batch move has its files in order or fails at once, an ingest completes or leaves every row's path |
| BundleRuns.IngestAlignedExactly | crates/bundles/src/admin.rs:274-304 | an ingest keeps an aligned build aligned exactly if it completes or every row's path survives it |
| BundleRuns.RunsKeepAlignedAfterIngest | crates/bundles/src/admin.rs:274-834 | so does every run from any build at all, once an ingest has completed |
| BundleRuns.NothingBelowAFile | crates/bundles/src/admin.rs:389-834 | over every such run no row lies beneath a file row |
| BundleContents.UploadFaithfulExactly | crates/bundles/src/admin.rs:389-451 | an upload keeps rows telling the size and hash on disk exactly unless hashing fails over a row of other bytes |
| BundleContents.UploadRecords | crates/bundles/src/admin.rs:389-451 | what a completed upload leaves at its path, and that nothing else changes |
| BundleRuns.RunsKeepFaithful | crates/bundles/src/admin.rs:274-834 | over every run whose uploads hash what they place and whose failed ingests leave every row's bytes, each file row tells the size and hash of its bytes |
| BundleIngest.ExtractZip | crates/bundles/src/archive.rs:33-106 | the entry loop on what may be no ZIP or have unreadable entries, its skips, refusals and limits, which count declared sizes; what is written has its own |
| IngestLaws.NothingFromTheMacFolder | crates/bundles/src/archive.rs:55-57 | nothing at or below `__MACOSX` ever comes out of an archive |
| IngestLaws.EntriesGoToTheirPaths | crates/bundles/src/archive.rs:59-80 | any other entry goes to its normal path, leading slashes apart, is passed over when that is nothing, and stops the extraction when it leaves the build |
| IngestLaws.LimitsStop | crates/bundles/src/archive.rs:40-88 | more than 100 000 entries, or 10 GiB declared, stop the extraction |
| BundleIngest.ExtractionStaysInside | crates/bundles/src/archive.rs:33-106 | whatever the archive names and wherever extraction stops, every path written is normal and stands in folders |
| BundleIngest.ExtractionIsBounded | crates/bundles/src/archive.rs:76-81 | an archive is extracted whole only if the bytes it declares are within the limit |
| BundleExtracted.ExtractedExactly | crates/bundles/src/archive.rs:33-106 | an extraction completes exactly if every entry goes through, by its name, declared size, path and what the filesystem refuses, and leaves exactly the files and folders these bring and the one that stops has made |
| BundleExtracted.ExtractedBytesExactly | crates/bundles/src/archive.rs:83-106 | each file holds exactly the bytes of the last entry for it that went through, or as many as the one that stopped wrote |
| BundleExtracted.OnlyEntriesStand | crates/bundles/src/archive.rs:33-106 | corollary: whatever stands after it is on the way to an entry of the archive |
| BundleScan.Walk | crates/bundles/src/archive.rs:118-166 | the recursive walk records exactly the paths it can see, each once, and fails exactly when one cannot be read |
| BundleScan.ScanDirectory | crates/bundles/src/archive.rs:110-116 | the same for the whole tree |
| BundleScan.ScanIsDistinctExactly | crates/bundles/src/repo.rs:282-290 | a scan names no path twice exactly when no two names differ only in backslash against slash |
| BundleScan.BackslashIsScannedTwice | crates/bundles/src/archive.rs:118-166 | there is a tree whose scan, in whatever order, names a path twice |
| BundleScan.NormalScanIsDistinct | crates/bundles/src/archive.rs:110-166 | what extraction wrote is scanned to distinct paths |
| BundleUpsert.UpsertScan | crates/bundles/src/repo.rs:262-281 | the chunk loop completes exactly when no chunk names a path twice, and then is the upsert of all entries less the rows not named |
| BundleUpsert.UpsertsMerge | crates/bundles/src/repo.rs:262-345 | rows at scanned paths keep id and `download_once`, other entries take new ids, the rest stays |
| BundleUpsert.IngestedBuild | crates/bundles/src/repo.rs:262-345 | after a completed ingest the row paths are the paths on disk, with `download_once` kept for old paths and false for new |
| BundleUpsert.IngestAligns | crates/bundles/src/admin.rs:274-304 | then rows and disk are aligned and the rows tell the truth, whatever they were before |
| BundleUpsert.SeenAligns | crates/bundles/src/admin.rs:274-304 | so even when some folders could not be listed and lose their rows |
| BundleUpsert.FailedIngestAlignedExactly | crates/bundles/src/admin.rs:285-304 | wherever an ingest fails, the old rows are aligned exactly when each one's path is among what a failed wipe left, or comes out of the archive as what it was |
| BundleUpsert.RefusedAlignedExactly | crates/bundles/src/admin.rs:285-304 | when an entry is refused, or the walk fails, exactly when the entries before it bring every row |
| BundleUpsert.FailedIngestFaithfulExactly | crates/bundles/src/admin.rs:285-304 | and they tell the truth exactly when each file row's bytes do |
| BundleUpsert.FailedIngestNeedsThePaths | crates/bundles/src/admin.rs:285-304 | after a completed wipe, only rows on the way to an entry of the archive can be |
| BundleUpsert.WipedAlignedExactly | crates/bundles/src/admin.rs:285-304 | corollary: when nothing is unpacked, exactly when there are no rows |
| BundleUpsert.FailedIngestCanStayAligned | crates/bundles/src/admin.rs:285-304 | an ingest that fails in extraction and leaves its one row aligned |
| BundleManifest.DiffTree | crates/bundles/src/admin.rs:866-892 | exactly the file rows with nothing on disk, and exactly the scanned files no file row tracks |
| ManifestLaws.DifferenceIs | crates/bundles/src/admin.rs:866-892 | by the rows of the build: missing is a file row with nothing at its path, orphaned a scanned file that no file row is for |
| BundleManifest.AlignedMissesNothing | crates/bundles/src/admin.rs:866-892 | on an aligned build nothing is missing |
| BundleManifest.IngestedHasNoOrphan | crates/bundles/src/admin.rs:866-892 | after an ingest nothing is orphaned |
| BundleManifest.BuildManifest | crates/bundles/src/manifest.rs:44-106 | the loop groups the present rows by category in order, and counts files and bytes |
| ManifestLaws.EntryTells | crates/bundles/src/manifest.rs:60-100 | what a manifest entry says of its row, its address included |
| ManifestLaws.ManifestHasExactly | crates/bundles/src/manifest.rs:44-106 | the manifest has exactly the rows whose path stands on disk, each in the group of its category |
| BundleManifest.GroupsPartition | crates/bundles/src/manifest.rs:44-106 | the groups are a partition of the rows: each entry stands in one of them, once |
| BundleManifest.IngestedTotals | crates/bundles/src/manifest.rs:88-106 | after an ingest count and size are the number of files on disk and the sum of their sizes |
| CatalogStores.CatalogStore.LinkOwnedBundle | crates/catalog/src/admin.rs:174-207 | find or provision the bundle at the slug and point the client at it |
| CatalogStores.CatalogStore.Create | crates/catalog/src/admin.rs:92-146 | the create transaction, rolled back when the slug cannot be provisioned |
| CatalogLaws.CreatesExactly | crates/catalog/src/admin.rs:92-207 | exactly when a create is refused, with which error; otherwise the client is linked to the bundle asked for, or to that of its own slug |
| CatalogStores.CatalogStore.StrandOldBundle | crates/catalog/src/admin.rs:338-362 | what becomes of the bundle an update moved away from |
| CatalogStores.CatalogStore.Update | crates/catalog/src/admin.rs:220-298 | the update transaction |
| CatalogLaws.UpdatesExactly | crates/catalog/src/admin.rs:220-362 | exactly when an update is refused, with which error; otherwise a given text links to the bundle of that slug, null or blank to that of the client's slug, an absent field to the bundle it had; and what becomes of the bundle left |
| CatalogStores.CatalogStore.Delete | crates/catalog/src/admin.rs:395-427 | the delete transaction, the bundle with the client |
| CatalogLaws.DeletesExactly | crates/catalog/src/admin.rs:395-427 | what deleting a client takes and whom it unlinks |
| CatalogLinkRuns.RunsKeepLinks | crates/catalog/src/admin.rs:174-427 | over every run a link that is set names an existing bundle, with its slug beside it |
| CatalogLinkRuns.UploadsSurviveRuns | crates/catalog/src/admin.rs:331-362 | over every run in which nobody asks for a deletion a bundle with files in it stays |
| CatalogLinkRuns.AbsentFieldKeepsTheLink | crates/catalog/src/admin.rs:300-326 | an update without `bundleSlug` of a linked client changes neither its link nor any bundle |
| CatalogLinkRuns.UpdateLinks | crates/catalog/src/admin.rs:220-298 | a completed update leaves the client linked, under its new slug, and no other client changed |
| CatalogLinkRuns.UpdateDestroysExactly | crates/catalog/src/admin.rs:331-362 | an update destroys exactly the bundle it moved away from, when no other client points at it and it is empty or the caller opted in |
| CatalogLinkRuns.OrphanReportedExactly | crates/catalog/src/admin.rs:268-298 | a bundle is reported as orphaned exactly when it is left there with nobody pointing at it |
| CatalogLinkRuns.DeleteUnlinksSharersExactly | crates/catalog/src/admin.rs:389-427 | deleting a client unlinks exactly the clients that share its bundle |
| CatalogLinkRuns.ClientsCanShare | crates/catalog/src/admin.rs:174-207 | from an empty catalog, two creates with one `bundleSlug` share the bundle, and deleting one client leaves the other without |
| CatalogLoader.PickLocale | crates/catalog/src/repo.rs:134-142 | the three finds of the locale fallback |
| CatalogLoader.PickedIs | crates/catalog/src/repo.rs:134-142 | by position: first row of the requested locale, else of the default, else the first row |
| CatalogLoader.LoadKeywordTitles | crates/catalog/src/repo.rs:309-346 | the shared titles are those of each keyword alone |
| CatalogLoader.LoadBundles | crates/catalog/src/repo.rs:352-391 | each client gets the summary of the bundle it links to, or none when that is gone |
| CatalogLoader.AssembleMedia | crates/catalog/src/repo.rs:160-185 | the first row of each singular role and all screenshots in order |
| CatalogLoader.Relations.Load | crates/catalog/src/repo.rs:204-303 | one read per relation serves every client of the list as the tables have it |
| CatalogLoader.Relations.Assemble | crates/catalog/src/repo.rs:396-427 | a DTO takes its client's share and leaves the others' |
| LoaderLaws.DtoMedia | crates/catalog/src/repo.rs:160-185 | a DTO's pictures are the first of each role among its client's rows, its screenshots all of them in order |
| LoaderLaws.DtoBundle | crates/catalog/src/repo.rs:352-391 | its bundle is the one the row links to, with the address of its manifest |
| LoaderLaws.DtoLinks | crates/catalog/src/repo.rs:396-427 | its keywords and servers are its client's, in order, with the titles of the fallback |
| LoaderLaws.DtoTexts | crates/catalog/src/repo.rs:396-427 | its texts are those of the locale fallback among its client's rows |
| CatalogLoader.ListClients | crates/catalog/src/repo.rs:429-449 | each DTO of a list is the one its client has alone |
| CatalogLoader.LoadClient | crates/catalog/src/repo.rs:481-501 | the one-element load gives that same DTO |
| FileTree.ChildrenOf | admin-ui/src/features/builds/fileTree.ts:40-92 | the flat listing has exactly the paths shown in the folder, explicit rows winning over implied folders |
| FileTreeLaws.ListingShows | admin-ui/src/features/builds/fileTree.ts:40-92 | a folder's listing has exactly the paths in it that lead to artifacts, each with its own artifact or as a folder |
| FileTree.TreeBuilder.Ensure | admin-ui/src/features/builds/fileTree.ts:107-129 | the recursive `ensure` ends, and makes the node with its missing ancestors |
| FileTree.TreeBuilder.BuildTree | admin-ui/src/features/builds/fileTree.ts:104-152 | the nodes are the shown paths with their entries, each under its parent |
| FileTreeLaws.TreeShows | admin-ui/src/features/builds/fileTree.ts:104-152 | so has the tree, each under its folder, once, or at the root |
| FileTreeLaws.ChildrenAre | admin-ui/src/features/builds/fileTree.ts:104-152 | under a node stand only paths whose folder it is, each once |
| FileTree.ViewsAgree | admin-ui/src/features/builds/fileTree.ts:40-167 | for every folder and the root the nodes under it are the entries of the flat listing |
| FileTree.OccursOnce | admin-ui/src/features/builds/fileTree.ts:104-152 | a node stands at one place, under its parent |
| Base64.NormalizeBase64 | crates/yggdrasil-protocol/src/payload.rs:157-197 | the character loop accepts symbols followed by at most two pads and refuses the rest, each with its error |
| Base64Laws.RefusesExactly | crates/yggdrasil-protocol/src/payload.rs:157-188 | the empty text, white space at an end, one over a multiple of four in UTF-8 bytes, anything but symbols and at most two pads: refused each with its error, in this order; all else is accepted |
| Base64Laws.PadsExactly | crates/yggdrasil-protocol/src/payload.rs:190-196 | what is accepted gets pads to the next multiple of four, two at most |
| Base64Laws.LengthIsBytes | crates/yggdrasil-protocol/src/payload.rs:164 | the length that counts is that of the UTF-8 text |
| Base64.DecodeEncode | crates/yggdrasil-protocol/src/payload.rs:157-197 | decoding undoes encoding, for all bytes |
| Base64.GroupsAreNumbers | crates/yggdrasil-protocol/src/payload.rs:120-126 | three bytes and the four symbols that encode them are one number of twenty-four bits, after the alphabet of RFC 4648 |
| Base64.EncodeDecode | crates/yggdrasil-protocol/src/payload.rs:157-197 | a text that decodes is the encoding of those bytes |
| Base64.NormalizeRestores | crates/yggdrasil-protocol/src/payload.rs:157-197 | an encoding with any of its padding stripped is normalised back to the encoding |
| Base64.NormalizeExtends | crates/yggdrasil-protocol/src/payload.rs:157-197 | accepted text is only ever padded, to a multiple of four |
| Base64.AcceptedDecodesExactly | crates/yggdrasil-protocol/src/payload.rs:157-197 | exactly which accepted texts decode: no pads or two or three symbols over, and no bits left over |

## Left out

- HTTP routing, extractors, headers, multipart streaming and WebSocket frames: plumbing around the modelled handlers.
- React components, and in `fileTree.ts` breadcrumbs and name checks: user interface, or easy.
- Hashing, RSA, tokens, ZIP decoding and the JSON text of the manifest: hashes and ids are opaque fresh values.
- `friend_requests`, presence, signalling, join sessions, logs, pagination and configuration: outside the properties proved here; friendships and presence are arbitrary inputs.
- `friends::decline` and `mark_offline`: not atomic in the code, so no whole-run claim is made about them.
- Client-side order of siblings in the file browser, and the sort of a directory listing: collation is not modelled, so both are sets here.
- Modification times, publication flags, locales' writes, keyword and server editing: they add only easy members.
- Windows path prefixes in `normalize_relative_path`: the model follows the code on Unix paths.
- RateLimiters.Buckets.EvictStalest: `select_nth_unstable` is replaced by choosing the stalest key repeatedly, because only which keys go can be observed.
- RelayServers.RelayServer.Connect: the ticket's token, owner and expiry are one usable-or-not flag, because the proof is about single use.
- FileTree.TreeBuilder.BuildTree: node references are modelled by the path that keys them, because every node is reached through the map; sibling order as in `ChildrenOf`.
- CatalogStores.CatalogStore.Create: locale rows and the bundle's display name are not modelled, because no property depends on them.
- BundleManifest.BuildManifest: counts are unbounded, because an `i32` of files is far above the entry limit.
- BundleBatches.BatchKeepsAligned: one direction only, because `CompletedBatchCanRealign` shows the other fails; `AlignedThroughoutExactly` is exact about every turn.
- BuildStores.BuildStore.BulkDelete: ids of other builds are a parameter, because one build is modelled.
- AdmissionDesks.AdmissionDesk.CleanupRows: which tickets are spent and old enough is a parameter, because their timestamps decide nothing else.
- FileTree.ChildrenOf: the order of siblings is not modelled, because it is the browser's collation.
- GuestJourneys.OneGuestPerAdmission: a ticket's owner is not checked, because the guest's identity is part of one usable-or-not flag.
