# bore, modelled in Dafny

bore exposes local services through a public server. This project models the parts of it whose
correctness is hardest to see by reading one function: the client's connection pools and its
shutdown protocol, the liveness policy both ends follow during an outage, the NAT-traversal planner,
the byte-stream code in front of a tunnel, and the registry behind the admin page. It proves what
those parts keep over every interleaving, every history and every input.

`dafny verify dfyconfig.toml` checks the whole project.

## How the model is built

**Concurrent protocols** (`DirectPool`, `CarrierPool`, `ClientScope`, `Linger`, and the overlapping
calls in `SecretPath`) are labelled steps over explicit state. One step is one atomic action of one
task: an operation on a shared counter, a send or receive on a channel, a change to the loop's own
variables. A run is any sequence of enabled steps, so any interleaving. The theorems are about every
run from the initial state, and what a run leaves behind is tied to the list of its steps by itself
(`NothingIsAskedTwice`, `CarrierLife`, `PoolIsItsHistory`, `ScopeIsItsHistory`, `ProviderIsItsHistory`,
`RegistryIsItsHistory`).

Two arms of the client's loop read a shared atomic and act on it later. The model keeps both as
separate steps, and says what depends on it:

- the `up` arm loads the live count and then drains the renew queue. `NoLostTopUp` holds for every
  run in which no carrier releases its slot inside that window; `UpArmLosesExactly` says when the arm
  loses a top-up, `LostIsStuck` that such a pool then stays short, `UpArmRaceReachable` that such a
  run exists for every target;
- the re-dial check reads the pool before it claims the batch. `PoolWidth` holds when no carrier comes
  up in between; `PoolWidthAnyInterleaving` bounds every run by twice the target, and
  `StaleReadDoublesPool` reaches that bound.

The offer arm's receive, its resolution of the server's address and its read of the live count are one
step, because nothing before the read leaves a trace. Atomic operations take effect in one total order.

**Imperative code** is imperative here too: `Listener`, `Dialer`, `Scope`, `Provider`,
`TransportReaper`, `Activities`, `Timer`, `Prefixed`, `Admin` and the sparse sink's `File` are classes, and the loops of
the byte-stream code are methods. Each arm of a loop is proved equal to the sequence of protocol steps
it takes when no other task gets in between.

**Time** is a real number of milliseconds. A connection's watch keeps its last inbound byte in whole
milliseconds, as the source does. Checks are on time where a theorem says that a grid of checks is
served. A server's loop sends its beat and checks its deadline in the same tick (`src/server.rs:3188`,
`src/vhost.rs:1206`, `src/secret.rs:488`), and so does the model's.

**NATs** are packets: mappings, filters and the ports each peer has written to or heard from, after
sections 4.1 and 5 of RFC 4787. A symmetric NAT draws a port the other side was not offered and has not
written to. Filters of a symmetric NAT may be keyed per socket, as the RFC words it, or per mapping.

**Machine integers**: registration ids wrap at 2^64, backoff delays saturate at 2^64 - 1, declared
intervals saturate at 2^32 - 1. Shifts and masks of the Base64 encoder are division and remainder by
powers of two; exclusive-or and or of bytes are defined bit by bit. Counters of live carriers are
integers that are proved never to go below zero.

## Where the code and its documentation differ

The model follows the code.

- The stamp of the last inbound byte is cut to whole milliseconds (`src/mux.rs:165-168`), so silence is
  overstated by up to a millisecond. A peer whose gaps stay below the deadline by less than that can be
  reaped (`KeptExactly`). The promise that a name is free before the client redials holds on every path
  whose two one-way latencies add up to half a millisecond, or whose way up takes no time, and on no
  other (`NamesAreFreeExactly`).
- The comment above `symmetric-strict-filtering` speaks of both filters being strict; the code asks for
  one (`src/adaptive_nat.rs:479-484`).
- `Backoff` promises to stay at or below its cap; `reset` restores an initial delay above it
  (`src/reconnect.rs:68-70`). `CapHoldsExactly` says when that matters.
- A drained scope is meant to hold no abort handle. It keeps one for exactly the tasks an abort killed
  before their first poll (`HandleStaysExactly`).

- The gate is described as judging a request by its head. It scans everything it has read, so when no
  header decides, the part of the body that came with the last read does (`RequestIsJudgedExactly`).

`set_secret_path` takes a shared reference, so its interface allows overlapping calls, and
`ReasonIsLeftExactly` says what those would leave behind. The program makes none: every caller is the
one control task of that consumer, and for calls that do not overlap `HistoryIsCounted` holds.

## Model

| member | source | states |
|---|---|---|
| `DirectPool.SlotAccounting` | src/client.rs:2238-2328 | In every run the shared counter equals the slots carriers hold plus the one being submitted, never goes below zero and never exceeds the target, whatever exit path each carrier takes |
| `DirectPool.NothingIsAskedTwice` | src/client.rs:1839-1906 | In every run each queue holds exactly what was put in and not taken out, and the server is asked at most once for every signalled release or unresolved offer |
| `DirectPool.CarrierLife` | src/client.rs:2255-2327 | In every run a carrier is where its own steps brought it, and gives its slot back at most once, on whichever path it leaves |
| `DirectPool.NoLostTopUp` | src/client.rs:1839-1933 | After the first offer every state of every run with uninterrupted `up` arms has a whole pool or a recovery outstanding, until the scope closes |
| `DirectPool.LostNeedsInterruption` | src/client.rs:1909-1933 | A run that ends with a pool below target and nothing left to top it up has a carrier releasing its slot inside an `up` arm's window, and the lemma returns where |
| `DirectPool.LostIsStuck` | src/client.rs:1915-1924 | From such a state no continuation without a further release or a shutdown raises the live count: it stays short for the life of the control connection |
| `DirectPool.UpArmLosesExactly` | src/client.rs:1925-1931 | For every window of other tasks' steps, the `up` arm loses the top-up if and only if a slot was released in it, as many releases were signalled in it as were owed before or made in it, no request or offer was in flight when it began, and the scope did not start closing |
| `DirectPool.UpArmRaceReachable` | src/client.rs:1925-1931 | For every positive target such a run exists from the start |
| `DirectPool.RecoveryHeals` | src/client.rs:1683-1723 | From every accounted state with a recovery outstanding there is a continuation, without any release, that brings the pool back to its target |
| `DirectPool.OfferArmRun` | src/client.rs:1705-1723 | The uninterrupted offer arm opens exactly the shortfall |
| `ListenLoop.OfferRun` | src/client.rs:1695-1723 | The offer arm's steps end in the state the arm promises: a queued renewal on a failed resolution, a whole pool otherwise, an unchanged pool when the scope refuses every spawn |
| `ListenLoop.UpRun` | src/client.rs:1909-1933 | The uninterrupted `up` arm cancels the sleep and every queued renewal when the pool is whole and keeps them all when it is short |
| `ListenLoop.Listener.constructor` | src/client.rs:1422-1444 | The initial pool: no carrier, nothing queued, a target of at least one |
| `ListenLoop.Listener.OnOffer` | src/client.rs:1683-1723 | The new state is the offer arm's, and the slot accounting holds again |
| `ListenLoop.Listener.OpenShortfall` | src/client.rs:1705-1723 | The loop reserves and spawns up to the target, and gives back every slot of a refused spawn |
| `ListenLoop.Listener.OnRenew` | src/client.rs:1889-1906 | One queued renewal becomes one scheduled sleep, however many are queued |
| `ListenLoop.Listener.OnSleep` | src/client.rs:1839-1888 | The sleep is cleared and becomes one request to the server; over whole runs `NothingIsAskedTwice` bounds those requests |
| `ListenLoop.Listener.OnUp` | src/client.rs:1909-1933 | The new state is the run of the `up` arm's steps, and a covered pool stays covered |
| `ListenLoop.Listener.Release` | src/client.rs:2256-2261 | Exactly one slot is given back and one renewal queued, so the pool is covered afterwards |
| `CarrierPool.PoolWidth` | src/client.rs:2455-2520 | With the re-dial check uninterrupted, live carriers plus carriers still to open never exceed the largest target set so far, in every run |
| `CarrierPool.PoolWidthAnyInterleaving` | src/client.rs:2455-2520 | In every run at all they stay within twice the largest target, and the live count never goes below zero |
| `CarrierPool.OneBatchAtATime` | src/client.rs:2468-2471 | In every run the flag is up while a batch is in flight, and a claim starts a batch exactly when none is, the flag is down and the scope is open |
| `CarrierPool.RedialOvershootsExactly` | src/client.rs:2463-2472 | For every window between read and claim, the claim overshoots the target it read if and only if more carriers came up than went away in it |
| `CarrierPool.StaleReadDoublesPool` | src/client.rs:2463-2472 | The bound of twice the target is reached, for every positive target |
| `CarrierPool.TickRestoresTarget` | src/client.rs:2049-2060 | A tick below target with no batch in flight starts exactly the shortfall, and a batch whose dials succeed ends at the target |
| `CarrierPool.TargetsNeverCloseCarriers` | src/client.rs:1579-1601 | A running carrier runs on through every run in which it does not itself end, whatever targets are set |
| `CarrierPool.TripReachesEveryCarrier` | src/client.rs:1510-1533 | A silence trip terminates every tracked carrier for good, and what can appear afterwards is bounded by the dials a batch in flight had left |
| `CarrierPool.PoolIsItsHistory` | src/client.rs:1579-1608 | In every run the target is the last one set less one, carriers are terminated only by a trip, and a carrier is uncounted exactly by its own step |
| `CarrierPool.BatchRun` | src/client.rs:2480-2520 | A batch that opens `n` carriers adds exactly `n` running, tracked carriers and lowers its flag |
| `CarrierLoop.RedialRun` | src/client.rs:2455-2480 | The uninterrupted check does nothing at target, raises the flag only, or starts the shortfall |
| `CarrierLoop.Dialer.constructor` | src/client.rs:1472-1488 | The initial pool: the carriers that came up, all counted and tracked |
| `CarrierLoop.Dialer.MaybeRedial` | src/client.rs:2455-2480 | The new state is that run, and a batch it starts brings the width exactly to the target |
| `CarrierLoop.Dialer.SetCarrierTarget` | src/client.rs:1579-1608 | The target is stored less one; raising it tops the pool up now, lowering it touches no carrier |
| `CarrierLoop.WholeBatchRun` | src/client.rs:2480-2520 | A batch whose scope closes on the way, or was closing all along, leaves exactly the carriers launched before and lowers its flag |
| `CarrierLoop.DialRun` | src/client.rs:2410-2449 | One carrier is counted, tracked and launched, or, refused by a closing scope, forgotten and uncounted with no trace in the counts |
| `CarrierLoop.Dialer.RunBatch` | src/client.rs:2480-2520 | The new state is that run: with the scope open as many new carriers as dials succeeded before the first failure, with a closing one none |
| `CarrierLoop.Dialer.OpenCarriers` | src/client.rs:2481-2518 | The batch's loop, proved against the pool those dials leave behind |
| `CarrierLoop.Dialer.PlaceCarrier` | src/client.rs:2410-2449 | One turn of it |
| `ClientScope.RunKeepsInv` | src/client.rs:172-268 | What every step of spawners, finishing tasks and shutdown callers keeps |
| `ClientScope.ScopeIsItsHistory` | src/client.rs:172-232 | In every run a task is where its own steps brought it and is aborted exactly if told to, and the scope is closing, closed or seen empty exactly if the step that says so was taken |
| `ClientScope.HolderFrees` | src/client.rs:177-198 | Whoever holds the registration mutex, a refused spawner included, can go on and frees it within three steps |
| `ClientScope.ClosingAdmitsNothing` | src/client.rs:172-210 | Once closing is set the set of registered tasks never grows, in every run |
| `ClientScope.DrainIsFinal` | src/client.rs:201-232 | An observed-empty closed tracker is empty in every later state |
| `ClientScope.AbortMapIsExact` | src/client.rs:184-198 | Until an abort is issued the abort map holds exactly the tasks whose guard has not finished dropping, but for the one being registered, even when a task ends before its handle is inserted |
| `ClientScope.AbortReachesEveryTask` | src/client.rs:214-231 | Once closing, every unfinished task has a handle in the map a timed-out shutdown aborts |
| `ClientScope.HandleStaysExactly` | src/client.rs:184-198 | For every run that drains, a handle stays in the map if and only if its task was killed before its first poll |
| `ClientScope.CleanDrainLeavesNoHandle` | src/client.rs:253-268 | So a drain without an abort leaves the abort map empty |
| `ClientScope.AbortedTaskLeavesHandle` | src/client.rs:186-197 | And a drained scope with a handle left is reachable |
| `ClientScope.Scope.constructor` | src/client.rs:143-157 | A new scope is the initial state |
| `ClientScope.Scope.Spawn` | src/client.rs:172-199 | Refused exactly when shutdown won, and then without effect; otherwise a fresh id is tracked and its handle inserted |
| `ClientScope.Scope.BeginShutdown` | src/client.rs:201-210 | Idempotent; the first caller sets closing and closes the tracker |
| `ClientScope.Scope.DropGuard` | src/client.rs:253-268 | The finished task's handle is gone from the map |
| `Linger.LostServerClosesOnlyWhenIdle` | src/client.rs:2794-2824 | After a silence trip, in every run, the listener closes only when every direct connection has ended or the scope was cancelled |
| `Linger.LingeringOnlyShrinks` | src/client.rs:2808-2821 | Once it stops serving, no connection is added and the live count never grows |
| `Linger.CleanExitClosesAtOnce` | src/client.rs:2803-2823 | In every run without a trip the provider never lingers: on seeing the channel gone it closes whatever it serves |
| `Linger.LingeringDrains` | src/client.rs:2814-2823 | A lingering provider can always finish: ending what it serves and one poll close it |
| `Linger.RunKeepsInv` | src/client.rs:2836-2851 | The live count is the number of held guards, and lingering implies that the flag was set before the channel went |
| `Linger.ProviderIsItsHistory` | src/client.rs:2724-2828 | In every run there is one connection for every accept, ended exactly by its own end; the provider lingers only after a trip, and stops serving exactly on seeing the channel gone or the cancellation |
| `Linger.Provider.constructor` | src/client.rs:2721-2723 | The provider starts serving, with no connection |
| `Linger.Provider.Happen` | src/client.rs:2846-2851 | A connection's guard drops, or the scope is cancelled |
| `Linger.Provider.OnControlGone` | src/client.rs:2803-2824 | Its steps and those of the other tasks it waited for are a run of the protocol; without a trip it closes at once, after one it closes only with nothing live or cancelled, and otherwise still waits |
| `Liveness.SilenceOverride` | src/liveness.rs:106-115 | Every decimal number as an operator writes it, with an optional plus sign and white space around it: zero disables, others are clamped, one beyond 64 bits keeps the shipped deadline |
| `Liveness.DisabledExactly` | src/liveness.rs:106-115 | For every text: detection is disabled if and only if the trimmed text is an optional plus sign and zeros; without a 64-bit number the shipped deadline stays, any other number is clamped |
| `Liveness.DeclaredIsNeverZero` | src/liveness.rs:93-98 | For every interval the declared one is never zero, fits 32 bits, and is its whole milliseconds where those do |
| `Liveness.DeadlineExactly` | src/liveness.rs:123-133 | None exactly for a client that declared nothing, else the shortest deadline that grants three intervals and the floor, an hour at most |
| `Liveness.NoFalseReap` | src/liveness.rs:155-166 | For every history, a peer whose inbound gaps stay a millisecond below the deadline is never terminated |
| `Liveness.ShorterGapCanBeReaped` | src/mux.rs:165-183 | Every larger gap bound, even one below the deadline, has an ordered history that is terminated |
| `Liveness.KeptExactly` | src/mux.rs:165-189 | No history within a gap bound is terminated if and only if the bound is a millisecond below the deadline |
| `Liveness.DeclaredBeatIsSafe` | src/liveness.rs:94-133 | For every interval and floor, no history of a client beating as it declares is terminated under the deadline derived from it if and only if the interval is at most an hour less a millisecond |
| `Liveness.TickIsAtMostHalf` | src/liveness.rs:117-121 | For every accepted deadline the check period is at most half of it, at most a quarter from 200 ms on, and within 50 ms and 1 s |
| `Liveness.SilenceIsDetected` | src/liveness.rs:155-166 | A connection that delivers nothing after an instant is terminated within the deadline and one check period, for every phase of the checks |
| `Liveness.QuietTickReaps` | src/liveness.rs:155-166 | A check inside a quiet stretch, a deadline after it began, terminates whatever arrives later |
| `Liveness.SilentPathTrips` | src/liveness.rs:179-199 | For every accepted deadline, with its own tick, a silent path trips within one and a half deadlines |
| `Liveness.FirstTick` | src/liveness.rs:179-199 | Every instant after the phase has a check within one period of it |
| `Liveness.Activity.constructor` | src/mux.rs:157-163 | A new connection counts as heard now |
| `Liveness.Activity.Deliver` | src/mux.rs:165-168 | A delivered byte moves the stamp, cut to whole milliseconds, unless the connection was terminated |
| `Liveness.NewReaper` | src/liveness.rs:146-148 | A client that declared nothing gets no reaper; any other gets one with its deadline |
| `Liveness.TransportReaper.constructor` | src/liveness.rs:146-148 | The reaper's deadline is the declared one's |
| `Liveness.TransportReaper.ReapIfDue` | src/liveness.rs:155-166 | Reports the silence exactly when it reaches the deadline, and has then terminated the connection |
| `Liveness.Activities.Track` | src/liveness.rs:215-217 | The carrier is tracked behind the others |
| `Liveness.Activities.Forget` | src/liveness.rs:220-223 | Afterwards the carrier is not tracked and every other one still is, in order |
| `Liveness.Activities.TerminateAll` | src/liveness.rs:226-232 | Every tracked carrier is terminated and none tracked any more; returns how many there were |
| `Outage.ShippedDeadlinesAgree` | src/liveness.rs:310-318 | Both ends' shipped deadlines are fifteen seconds, their checks every half second and every second |
| `Outage.NamesAreFreeBeforeTheRedial` | README.md:929-935 | For every cut, tick phase and pair of histories on a path whose latencies add up to half a millisecond, or whose way up takes no time: the server has reaped the dead connection when the redialled hello arrives |
| `Outage.FasterPathsCanRaceTheReaper` | src/mux.rs:165-183 | For every other latency pair there is an outage, its beats and checks on one tick, in which the hello arrives first |
| `Outage.NamesAreFreeExactly` | src/liveness.rs:25-30 | The two together: the promise holds in every outage with given latencies if and only if they meet that bound |
| `Outage.LadderClosedForm` | src/liveness.rs:320-328 | The doubling retransmission ladder of section 5 of RFC 6298 is 200 ms times (2^k - 1) |
| `Outage.SixthStepOrNever` | src/liveness.rs:40-49 | The path is back by the sixth step if and only if the beat gets through by it; otherwise not before 25.4 s |
| `Outage.FlickIsTolerated` | src/liveness.rs:37-57 | For all histories around a flick whose path is back by the sixth step in each direction, neither end terminates |
| `Outage.ShortFlicksReachTheSixthStep` | src/liveness.rs:21-24 | Every flick of at most 12.6 s is one of those, whatever the phase of the beats |
| `Outage.LongerFlickDisconnects` | src/liveness.rs:40-49 | For all ordered histories that are quiet from the last beat before a flick to a retransmission later than the sixth, with checks served, both ends terminate, whatever arrives afterwards |
| `Outage.BeatToleratedExactly` | src/liveness.rs:37-57 | For every declared beat, under the deadline the server derives from it, all histories of a flick back by the sixth step survive if and only if the beat is at most 2399 ms or within 6301 ms and 3587399 ms |
| `Outage.FlickReaps` | src/liveness.rs:126-133 | For every other beat an ordered history of such a flick, all checks served, that is terminated |
| `Outage.FiveSecondBeatBreaksTheBound` | src/liveness.rs:320-331 | The shipped 2 s beat tolerates them all; for a 5 s beat there is a flick in which the server reaps and every client history survives |
| `Backoff.DelaySequence` | src/reconnect.rs:46-65 | The k-th delay is the initial one doubled k times, at most the cap, for every initial delay and cap |
| `Backoff.CapHoldsExactly` | src/reconnect.rs:29-70 | Over all histories of delays and resets the cap holds if and only if the initial delay respects it |
| `Backoff.ResetStartsOver` | src/reconnect.rs:67-70 | After any history a reset starts the doubling sequence over from the initial delay |
| `Backoff.Timer.constructor` | src/reconnect.rs:46-53 | The first delay is the initial one, at most the cap |
| `Backoff.Timer.NextDelay` | src/reconnect.rs:61-65 | Hands out the current delay and doubles it, saturating, up to the cap |
| `Backoff.Timer.ResetDelay` | src/reconnect.rs:68-70 | Back to the initial delay, uncapped |
| `NatPackets.PortFilterNeverHears` | src/adaptive_nat.rs:430-447 | In every run a side filtering per address and port hears nothing from a symmetric peer, whatever that peer's own filter |
| `NatPackets.PunchableExactly` | src/adaptive_nat.rs:430-447 | For every pair of NATs, two peers that exchanged offers have a run in which each hears the other if and only if no such filter faces a symmetric NAT and one side can be heard at the port STUN saw |
| `NatPackets.MuteRun` | src/adaptive_nat.rs:479-481 | Two symmetric NATs that filter per mapping and per address never hear each other |
| `NatPlanner.BlockedNeedsTotalSilence` | src/adaptive_nat.rs:180-216 | A peer is classified as blocked only with no classified mapping, observation, reflexive or router-mapped candidate; the wire's own classification, measurements and candidates are kept |
| `NatPlanner.RestrictedAsMeasured` | src/adaptive_nat.rs:222-244 | A filter counts as strict or open exactly as the probe, or lacking one the older observation, measured it; unmeasured is neither |
| `NatPlanner.OrderWellFormed` | src/adaptive_nat.rs:525-581 | Every order is duplicate-free, names the relay once, last in direct-led modes and first in relay-led ones, and otherwise holds exactly the usable kinds in priority order |
| `NatPlanner.TypedOrderIsTheUnion` | src/adaptive_nat.rs:531-545 | With typed candidates the direct part is exactly the union of both offers |
| `NatPlanner.UntypedOrderIsRevealed` | src/adaptive_nat.rs:546-564 | Without them it is exactly what the two sides revealed: a local address, a reflexive candidate, a mapping that calls for prediction |
| `NatPlanner.DirectKinds` | src/adaptive_nat.rs:530-564 | The pushes build the usable kinds in priority order |
| `NatPlanner.CandidateOrder` | src/adaptive_nat.rs:525-581 | The loop, dedup and relay placement build the well-formed order |
| `NatPlanner.PlansAgree` | src/adaptive_nat.rs:325-361 | Both sides compute the same mode, order, budgets and reason; spray roles are absent on both, or, exactly for `peer-port-restricted`, hard on the symmetric side and easy on the other |
| `NatPlanner.ReasonOfRole` | src/adaptive_nat.rs:448-464 | That cell has exactly one symmetric side, and the other's filter was measured to key on address and port, relay first |
| `NatPlanner.RelayOnlyNeedsEmptyOffers` | src/adaptive_nat.rs:404-523 | Relay-only if and only if both offers are empty; the default arm is unreachable |
| `NatPlanner.RelayNeedsAReason` | src/adaptive_nat.rs:399-403 | Relay-first needs a blocked or symmetric side: missing metadata never causes it |
| `NatPlanner.ModeExactly` | src/adaptive_nat.rs:404-523 | For every pair with a candidate: the relay leads if and only if a side is blocked, a measured filter stands in a symmetric peer's way, or a side is symmetric with no open filter measured and no escape reported; the direct path leads outright exactly for two direct-friendly sides |
| `NatPlanner.BudgetsOfModes` | src/adaptive_nat.rs:344-349 | The attempts, waits and pauses of each mode |
| `NatPlanner.LooserFilterNeverHurts` | src/adaptive_nat.rs:222-244 | Loosening one side's filter measurement never moves a pair from the direct path to the relay |
| `NatSoundness.VerdictsAreSound` | src/adaptive_nat.rs:429-491 | For profiles whose measurements are true of the NATs: where the plan blames a filter no run is two-way, and where it calls the pair direct-friendly or the filter open there is one |
| `NatSoundness.OneSymmetricSideIsExact` | src/adaptive_nat.rs:429-478 | With one symmetric side and the other's filter measured, the relay leads if and only if the pair cannot be punched |
| `NatSoundness.NeedlessRelayExactly` | src/adaptive_nat.rs:482-508 | The relay leads for a punchable pair exactly when a side is symmetric, no measured filter decides, neither side reported an escape, and in fact no filter is in the way |
| `ByteStream.OverlapSuffices` | src/edge.rs:252-256 | After bytes without a terminator, scanning the new ones plus three finds one if and only if the whole holds one |
| `HeadScan.ReadRequestHead` | src/edge.rs:244-261 | For every cut of every stream it stops at the same read as a full rescan and returns that prefix, shorter than the cap plus one read |
| `HeadScan.NoHeadIsMissed` | src/edge.rs:243-261 | A terminator that ends within the cap is always in what was read |
| `RequestHead.HeadEndsOnce` | src/edge.rs:256-256 | The terminator of a head of header lines is its last four bytes and occurs nowhere before |
| `RequestHead.ReaderStopsAtTheHead` | src/edge.rs:243-261 | However a request is cut into reads, the reader stops with the read that brings the last byte of its head |
| `SparseSink.Sink` | scripts/transfer_link_sparse_sink.py:26-41 | For every cut into blocks the file reads back as exactly the input, and the total, the hashed bytes and the zero-block count are right |
| `SparseSink.TruncateNeededExactly` | scripts/transfer_link_sparse_sink.py:30-41 | For every input the last truncate yields the input, and without it the file is short if and only if the input ends in a block of zeros |
| `SparseSink.File.constructor` | scripts/transfer_link_sparse_sink.py:29-29 | The output starts empty |
| `SparseSink.File.Seek` | scripts/transfer_link_sparse_sink.py:37-37 | Moves the position and leaves the contents alone |
| `SparseSink.File.Write` | scripts/transfer_link_sparse_sink.py:40-40 | Writes at the position; a gap before it reads as zeros |
| `SparseSink.File.Truncate` | scripts/transfer_link_sparse_sink.py:41-41 | Cuts or extends the contents with zeros |
| `Base64.AlphabetIsTheRfcs` | src/basicauth.rs:153-153 | The 64 symbols are A to Z, a to z, 0 to 9, plus and slash, in that order |
| `Base64.EncodeChunk` | src/basicauth.rs:155-171 | Shifting, masking and padding one chunk yields its four characters |
| `Base64.WordSextets` | src/basicauth.rs:156-168 | The four shifts of the 24-bit word are the four six-bit groups of section 4 of RFC 4648 |
| `Base64.Base64Encode` | src/basicauth.rs:152-174 | The loop computes the encoding that the round trip below is about |
| `Base64.RoundTrip` | src/basicauth.rs:150-174 | The RFC's decoder undoes the encoding, for every byte string |
| `Base64.Canonical` | src/basicauth.rs:150-174 | Nothing but an encoding decodes, so the encoding is injective and canonical |
| `Base64.EncodeLength` | src/basicauth.rs:154-154 | Four characters for every three bytes begun |
| `Base64.Accumulate` | src/basicauth.rs:143-147 | One turn of the exclusive-or and or loop keeps every difference ever seen |
| `Base64.ConstantTimeEq` | src/basicauth.rs:139-148 | The loop over all positions decides equality |
| `BasicAuth.BasicTokenExactly` | src/basicauth.rs:53-65 | A line counts if and only if its name spells Authorization and its value's first word Basic, in any letter case, and its token is the trimmed rest |
| `BasicAuth.PresentedExactly` | src/basicauth.rs:52-67 | What a list of headers presents is the token of the first such line |
| `BasicAuth.ParseExactly` | src/basicauth.rs:37-46 | Credentials are accepted exactly with a colon, and their token decodes to them |
| `BasicAuth.Authorized` | src/basicauth.rs:50-68 | For every head, malformed UTF-8 included, true exactly when that first line carries the token |
| `BasicAuth.AuthorizedExactly` | src/basicauth.rs:39-68 | A head passes if and only if its first Basic authorization header carries canonical Base64 of the configured credentials |
| `BasicAuth.TokensAreDistinct` | src/basicauth.rs:39-46 | Distinct credentials have distinct tokens |
| `Utf8Text.LossyOfUtf8` | src/basicauth.rs:51-51 | The lossy decoding of a head restores text exactly, whatever bytes follow it |
| `Utf8Text.Utf8IsInjective` | src/basicauth.rs:64-64 | Comparing bytes compares texts |
| `Utf8Text.NothingIsInvented` | src/basicauth.rs:51-51 | No overlong form, surrogate or broken sequence is ever decoded as a character |
| `BasicAuth.LinesOfJoined` | src/basicauth.rs:52-52 | Splitting a head into lines undoes joining its headers, whatever text follows |
| `BasicAuth.LineFeedEndsLine` | src/basicauth.rs:52-52 | A bare line feed ends a line too, and the last line needs no end |
| `BasicAuth.HeaderCarriesItsToken` | src/basicauth.rs:53-63 | A well-formed header in any letter case carries exactly its token |
| `BasicAuth.CorrectHeaderIsAccepted` | src/basicauth.rs:48-68 | For all credentials, all headers before and all bytes after, a head with the right header is accepted |
| `AuthGate.HttpExactly` | src/basicauth.rs:15-18 | A stream looks like HTTP if and only if its text begins with one of the nine method names |
| `AuthGate.VerdictIsStable` | src/basicauth.rs:132-134 | Five bytes settle that, whatever follows |
| `AuthGate.ReadHead` | src/basicauth.rs:98-116 | For every chunking, and a timeout anywhere, the loop stops at the first read that decides or when the reads end |
| `AuthGate.Gate` | src/basicauth.rs:89-130 | The prefix, the unread rest and what arrives after the timeout are the stream; it refuses exactly an HTTP head that does not present the token |
| `AuthGate.MistakenExactly` | src/basicauth.rs:115-120 | An HTTP stream is let through as something else if and only if the reads ended inside its method name |
| `AuthGate.CorrectRequestPasses` | src/basicauth.rs:118-122 | A head that begins with the right credentials is never refused |
| `AuthGate.UnauthorizedIsRefused` | src/basicauth.rs:121-128 | A request that begins with a method name and does not present the token is refused, whatever else it says |
| `RequestHead.GateStopsAtTheHead` | src/basicauth.rs:99-112 | However a request is cut into reads, the gate stops with the read that brings the last byte of its head |
| `RequestHead.RequestIsJudgedExactly` | src/basicauth.rs:89-130 | For every request and every cut: it is refused if and only if the token is not the one of its first Basic authorization header, or, only if it has none, of the lines of the body that came with the last read |
| `AuthGate.GateVerdictIsTheStreams` | src/basicauth.rs:105-112 | From eight bytes on the verdict agrees with every longer prefix and with the whole stream |
| `AuthGate.OtherTrafficIsNotHeld` | src/basicauth.rs:105-108 | The gate never asks for another read when it holds eight bytes of something else |
| `AuthGate.ChunkingDoesNotMatter` | src/basicauth.rs:99-112 | Two chunkings of one stream get the same classification |
| `AuthGate.Prefixed.constructor` | src/prefixed.rs:23-32 | The stream to read is the prefix followed by the rest |
| `AuthGate.Prefixed.Read` | src/prefixed.rs:34-51 | What is read is exactly the front of what was left, prefix first, within the buffer |
| `AuthGate.ReadMany` | src/prefixed.rs:34-51 | Any sequence of buffer sizes and of amounts the stream has ready reads a prefix of it and leaves the rest |
| `AuthGate.GateStream` | src/edge.rs:183-193 | Refused exactly when what was read is unauthorized HTTP; otherwise readable from its very first byte to its last |
| `SecretPath.HistoryIsCounted` | src/admin.rs:556-584 | Over every history of reports the counter is the number of entries into relay among recognised ones, the path the last recognised one, and on the relay, and only there, that report's reason is held |
| `SecretPath.OverlappingReportsAreCounted` | src/admin.rs:569-574 | The counter and path stay exact when calls overlap, once they have returned |
| `SecretPath.ReasonIsLeftExactly` | src/admin.rs:569-583 | Were calls to overlap, under every interleaving a reason would stand on the direct path if and only if a direct report swapped last and a relay report with a reason stored last |
| `SecretPath.OverlapCanLeaveAReason` | src/admin.rs:563-584 | The interface, not any caller in the program, admits such an interleaving |
| `AdminRegistry.IdsRepeatExactly` | src/admin.rs:382-389 | Two registrations share an id if and only if they are a multiple of 2^64 apart |
| `AdminRegistry.RegistryIsItsHistory` | src/admin.rs:382-445 | After every history of operations each registration holds what it was made with, exactly what it was told, is held until it was dropped, and counts the guards taken on it and not dropped |
| `AdminRegistry.SnapshotListsTheLive` | src/admin.rs:449-511 | After every history of at most 2^64 registrations a registration is listed if and only if it was not dropped, with what it was made with, its open guards and its own reports |
| `AdminRegistry.ShownIsTheHistory` | src/admin.rs:556-584 | What a row says about the path is the history of the reports sent to that registration in the list of operations |
| `AdminRegistry.ReplayKeepsConsistent` | src/admin.rs:382-445 | What every sequence of register, drop, guard and report operations keeps |
| `AdminRegistry.Reported` | src/admin.rs:563-584 | The three updates of one call are the report's effect |
| `AdminRegistry.Admin.constructor` | src/admin.rs:353-362 | Empty, with ids from one on |
| `AdminRegistry.Admin.RegisterTunnel` | src/admin.rs:382-445 | A new entry under the next id |
| `AdminRegistry.Admin.DropRegistration` | src/admin.rs:602-607 | Its entry is gone, every other one stays |
| `AdminRegistry.Admin.Guarded` | src/admin.rs:614-620 | One more active connection on that registration only |
| `AdminRegistry.Admin.ReleaseGuard` | src/admin.rs:622-626 | One fewer, also after the registration was dropped |
| `AdminRegistry.Admin.SetSecretPath` | src/admin.rs:563-584 | The report is applied to that registration, and every other one is unchanged |
| `AdminRegistry.Admin.Snapshot` | src/admin.rs:449-511 | Collecting the entries in any order and sorting them yields strictly ascending ids, one whole row for every entry and no other |
| `AdminRegistry.SortIs` | src/admin.rs:509-509 | Sorting rows with distinct ids keeps exactly them, strictly ascending |

## Left out

- DirectPool.NoLostTopUp: assumes that every renewal request is answered by an offer, and leaves out forced aborts and panics of carrier tasks, which skip the release.
- DirectPool.UpArmLosesExactly: the renewal backoff's length is not part of the pool's state, only whether a sleep is scheduled.
- CarrierPool.TripReachesEveryCarrier: carriers a batch has yet to track are bounded in number, not shown to end, because the source does not end them.
- Outage.NamesAreFreeBeforeTheRedial: latencies are constant, and a tick's beat, its check and the sending of the beat take no time.
- NatPackets.PunchableExactly: each NAT has one public address, and packets are not lost or reordered.
- NatSoundness.VerdictsAreSound: the `symmetric-escape` and `inconclusive` verdicts are guesses in the source and carry no claim.
- SparseSink.Sink: the bytes fed to the digest are modelled, SHA-256 itself is not.
- AdminRegistry.Admin.Snapshot: the registry does not change while a snapshot is taken; the fields fixed at registration are one map of names to texts, and of those that change only the active count and the data path are kept.
- Base64.ConstantTimeEq: the result, not the running time.
- Sockets, TLS, yamux, QUIC, STUN and task scheduling appear only as events.
- Memory orderings weaker than one total order of atomic operations.
- `resolve_stun_and_check`, the preferred-port and re-offer arms of the listen loop, and the wiring of the client's constructors: they gather candidates from the network and keep no invariant with the pools.
- `handle_connection`, which splices bytes, and the message order of the handshakes.
- `src/auth.rs`: its HMAC rests on a cryptographic library.
- The admin API, its views and its HTTP front: they copy and format the registry's rows.
- Certificate info and file-descriptor limits: a wrapper over an X.509 library, and a short saturating computation.
- Human-readable reasons, remedies, log lines and the parsing of diagnostic labels.
- Whether a port spray succeeds: it is a matter of probability.
- Fast link, web rooms, the VPN and the SSH gateway.
