# Verified models of the market maker

Dafny models of the parts of the repository whose correctness is hardest to see, with the
properties they are for. Decimals and finite `f64` values are exact reals; NaN and the
infinities are one extra case (`F64`); `u64` counters are naturals, saturating where the code
saturates; time is an integer number of nanoseconds. State that the code updates in place is a
class whose methods are proved equal to specification functions; lemmas about those functions
then speak of whole runs.

| component | files |
|---|---|
| Lease protocol: session, agent, two FIFO queues, one clock | `Control`, `ControllerSession`, `LeaseAgent`, `LeaseProtocol`, `LeaseSafety`, `SessionLaws`, `AgentLaws`, `RefreshLoop`, `Stranding`, `RefreshCycles`, `PunctualRuns`, `CursorLaws`, `Tunables` |
| P-square quantile estimator | `P2Quantile`, `P2Laws`, `P2Steps`, `P2Affine` (with `Sorting`) |
| Order book and sweep | `OrderBook`, `BookLaws`, `SweepLaws` (with `Trading`) |
| Queue position model and queue-aware backtest | `QueueModel`, `Simulator`, `SimulatorLaws`, `AnchorLaws`, `FillLaws` |
| Event deduplicator | `Deduplicator` |
| Command replay buffer | `Replay` |
| Fail ladder and its walker | `FailLadder`, `LadderWalker` |
| Strategy registry | `Registry` |
| Trace comparison | `TraceDiff` (with `Sorting`) |
| Stress path and drawdown | `Stress` |
| Paper trader | `Paper`, `PaperLaws` |

## What the proofs found

Where the code and its documentation or comments disagree, the model follows the code, a lemma
shows the input, and another says exactly when the documented behaviour holds.

- A refresh request that comes too early is dropped, not answered later: the agent never asks
  again for the same lease, so its authority ends with that lease whatever follows
  (`TurnedAwayIsFinal`). The comment in the controller that the next refresh fires anyway does
  not hold (`DishonestTurnsAway`). No request is ever turned away exactly when the lifetime or the
  controller's minimum interval is zero, or the refresh offset is at least that interval
  (`NeverTurnedAwayIff`), which the runtime settings' own check guarantees at the default refresh
  fraction (`AdmittedSettingsAreHonest`).
- Telemetry and commands advance one cursor field, while the documentation of the cursor promises
  neither gaps nor duplicates on resume. An agent that resumed from it would repeat nothing but,
  unless a revocation ended its connection, always skip the first command it was not yet delivered
  (`ResumeSkipsNext`, `GrantSkipped`; `ResumeCompleteIff` and `RevokedResumeIff` for every run).
  Resuming is hypothetical so far: `crates/agent/src/reconnect.rs:8-12` always advertises zero.
- Command numbers saturate at the largest `u64`: lease numbers rise strictly exactly below it
  (`InstalledLeasesAdvance`), and the first repeated number ends the agent's authority
  (`SaturationEndsAuthority`).
- Before five samples the quantile estimate is the newest sample, not the largest
  (`WarmUpNotLargest`, `WarmUpIsLargest`).
- A depth update can push a queue front below zero, after which a quote fills more than the trade
  brought. This cannot happen exactly when the probability model gives the back of the queue at
  least its share (`ConservationIff`), for models of the shipped shape exactly when the weight is
  proportional (`ShareModelIff`): exponent 1 qualifies, every other exponent and the default
  logarithm do not (`PowerConservesIff`, `LogOverfills`).
- A snapshot listing a price twice is read at its first mention by the depth update and at its last
  by the book (`FallingRepeatBreaks`). It does no harm exactly when no first mention exceeds the
  last, or they are equal where a side of the book is empty (`SnapshotHarmlessIff`).
- The deduplicator accepts a repeat once it has pruned (`BoundsAreTight`); how many distinct numbers
  and how much lag are safe is exact (`ExactUpToIff`, `ExactWithinIff`).
- The replay buffer reports a gap although nothing was lost when a log starts beyond the cursor
  (`GapWithoutLoss`), and none for a zero cursor although something was (`LossWithoutGap`);
  `GapHonestIff` says when the flag is right.
- The paper trader offers the whole trade to every crossed order, so a trade can be handed out
  more than once (`OneTradeFillsTwo`); `TradeNotOverfilledIff` says before the trade whether it is.

## Model

| member | source | states |
|---|---|---|
| `ControllerSession.AgentSession.Push` | `crates/controller/src/lib.rs:721-727` | Pushing a command takes the next saturating number whether or not the transport accepts it, and appends to the queue only if it does. |
| `ControllerSession.AgentSession.IssueInitialLeaseAndCredentials` | `crates/controller/src/lib.rs:596-623` | A grant stamped with the number it will travel under goes out first, then every credential until the transport fails. |
| `ControllerSession.AgentSession.Registered` | `crates/controller/src/lib.rs:499-590` | Registration: version and key checks refuse the session, the stored approval decides between a grant and silence. |
| `ControllerSession.AgentSession.Operator` | `crates/controller/src/lib.rs:381-419` | Approval and revocation by the operator, with their idempotent duplicates; a revocation drops the lease and says so. |
| `ControllerSession.AgentSession.RefreshRequested` | `crates/controller/src/lib.rs:625-685` | The four answers to a refresh request: revoke, two refusals, silent rate limit, or an extension that keeps the lease id. |
| `ControllerSession.AgentSession.Received` | `crates/controller/src/lib.rs:421-460` | Telemetry is dispatched: registration, refresh requests, and messages that change nothing about the lease. |
| `LeaseAgent.LeaseClient.TopOfLoop` | `crates/agent/src/lib.rs:265-277` | Each loop turn starts by dropping authority if the held lease has run out. |
| `LeaseAgent.LeaseClient.TimedOut` | `crates/agent/src/lib.rs:341-362` | A timed-out receive sends a snapshot when due and at most one refresh request per lease number once the deadline has passed. |
| `LeaseAgent.LeaseClient.Command` | `crates/agent/src/lib.rs:428-449` | Lease commands install, a revocation publishes the loss and ends the session, everything else is acknowledged. |
| `LeaseAgent.LeaseClient.Receive` | `crates/agent/src/lib.rs:364-378` | The in-flight marker is cleared exactly when the lease number changed. |
| `LeaseAgent.LeaseClient.TransportClosed` | `crates/agent/src/lib.rs:388-398` | A closed transport while holding a lease ends authority at once. |
| `LeaseSafety.StepKeeps` | `crates/control/src/in_memory.rs:49-66` | Every step of session, agent, queues and clock keeps the protocol invariant: numbering, stamping, issue order, the agent's lease as the last one delivered, no authority after a delivered revocation, one registration. |
| `LeaseSafety.LeasesNeedApproval` | `crates/controller/src/lib.rs:596-627` | Over every run, a lease is sent only by a step that leaves the session approved; it carries its envelope's number, the current time and the policy's lifetime. |
| `LeaseSafety.InstalledLeasesAdvance` | `crates/agent/src/lib.rs:1119-1136` | Over every run, a step that changes the installed lease moves it forward, although the agent checks nothing: no earlier issue, no earlier expiry, and a higher number if and only if the old one is below the largest u64. |
| `LeaseSafety.AuthorityIsBacked` | `crates/control/src/lease.rs:78-80` | Over every run, authority at any instant rests on the last delivered lease, issued less than one lifetime before, with no revocation delivered. |
| `LeaseSafety.UnapprovedLosesAuthority` | `crates/controller/src/lib.rs:381-419` | From any reachable unapproved session, without a later grant, nobody is authorised from one lifetime on, whatever is lost or crashes. |
| `LeaseSafety.RevocationEndsAuthority` | `crates/controller/src/lib.rs:401-418` | An operator revocation enters the queue; once delivered the agent never holds authority again, and without a later grant authority ends at T + ttl even if it is never delivered. |
| `LeaseSafety.RevocationBoundIsTight` | `crates/controller/src/lib.rs:401-418` | The bound T + ttl is exact: for every lifetime some run with a revocation at T is authorised until just before it. |
| `SessionLaws.CredentialsInOrder` | `crates/controller/src/lib.rs:605-613` | An open transport receives exactly the credentials, in order; a closed one nothing. |
| `SessionLaws.RegistrationAnswered` | `crates/controller/src/lib.rs:499-590` | Over every run, whenever the registration is read: a wrong version, an incompatible binary or a missing key ends the session with nothing sent; otherwise the approval is the stored one (accepted without a store), and exactly an accepted one is answered, by a lease under number 1 with the given id, time and lifetime and then every credential. |
| `SessionLaws.RegistrationDecides` | `crates/controller/src/lib.rs:499-590` | Over every run, while the operator grants nothing, a lease is ever sent if and only if the agent was there when the registration was read, at version 1, compatible, and without a store or with a key and a stored approval that is accepted; otherwise no credential is sent either unless a handler forwards one, and a refused registration sends nothing for good. |
| `SessionLaws.ApprovalGrants` | `crates/controller/src/lib.rs:381-400` | Over every run, an approval of an unapproved session sends a lease issued now under the given id and then every credential; of an approved one it changes nothing. |
| `SessionLaws.RefreshAnswered` | `crates/controller/src/lib.rs:625-685` | Over every run, the answer to a refresh request: a revocation if unapproved, the end of the session if it names no current lease, nothing sooner than the minimum interval after issue, and otherwise an extension under the same id from now. |
| `SessionLaws.LeasesNameTheAgent` | `crates/controller/src/lib.rs:686-712` | Over every run, every lease sent is made out to the agent that registered. |
| `AgentLaws.AsksWhenDue` | `crates/agent/src/lib.rs:279-362` | Over every run, a timeout of an agent holding a lease sends, after the snapshot if one is due, a request naming that lease if and only if it was not asked about before and the time since issue has reached the scaled lifetime in whole milliseconds, at least one, truncated. |
| `AgentLaws.TopExpires` | `crates/agent/src/lib.rs:265-277` | Over every run, the check at the top of a turn ends the pump and publishes the lease as expired if and only if the clock has reached its expiry. |
| `AgentLaws.DeliveryPublishes` | `crates/agent/src/lib.rs:1119-1159` | Over every run, a delivered lease is published as held, a delivered revocation ends the pump and publishes its reason beside the lease held, and nothing else changes either. |
| `AgentLaws.DeliveryAnswers` | `crates/agent/src/lib.rs:442-1117` | Over every run, a command delivered while the session lives is answered by the reply it asks for, if any, and then its acknowledgement; a revocation by nothing. |
| `AgentLaws.HangupEndsAuthority` | `crates/agent/src/lib.rs:388-398` | Over every run, an agent whose transport closed on it is unauthorised at every instant, before the expiry of its lease as well as after, and installs no other. |
| `AgentLaws.AcknowledgesInOrder` | `crates/agent/src/lib.rs:233-242` | Over every run, a live agent has acknowledged exactly the delivered commands, once each and in order, and while the session lives its cursor is the number of messages it has sent. |
| `RefreshLoop.LeasesInStep` | `crates/controller/src/lib.rs:625-685` | Without revocation, at most one lease message is in flight in either direction and the two leases are equal or differ by that one command; a request can be turned away only for its timing. |
| `RefreshLoop.OneRequestPerLease` | `crates/agent/src/lib.rs:245-252` | Over every run, the agent asks at most once per lease number, and for increasing numbers. |
| `RefreshLoop.NeverTurnedAwayIff` | `crates/controller/src/lib.rs:653-668` | No run without a revocation has a refresh request rate-limited or refused if and only if the lifetime is zero, the interval is zero, or the refresh offset is at least the interval. |
| `RefreshLoop.DishonestTurnsAway` | `crates/controller/src/lib.rs:653-668` | For every other configuration, a run of seven steps whose first refresh request is turned away. |
| `Tunables.AdmittedSettingsAreHonest` | `crates/controller/src/tunables.rs:360-376` | Every setting accepted by the runtime check (three intervals within a lifetime of at most ten minutes) is free of turned-away requests at the default fraction, an f32, with the product rounded. |
| `Tunables.AsksAfterAThird` | `crates/agent/src/lib.rs:279-362` | Over every run of such a setting, a timeout of an agent holding a lease it has not asked about sends nothing before the interval has passed since issue, and a request from one millisecond after a third of the lifetime on. |
| `Tunables.AdmittedAuthorityLasts` | `crates/agent/src/lib.rs:56-68` | Such settings leave two thirds of a lifetime of slack: any schedule that asks between a third of the lifetime plus one millisecond and the expiry keeps the agent authorised, however long. |
| `Stranding.TurnedAwayIsFinal` | `crates/agent/src/lib.rs:355-360` | After one request is turned away the agent holds no further lease on this connection: authority ends with the current one in every continuation. |
| `RefreshCycles.CycleExtends` | `crates/agent/src/lib.rs:341-378` | Below saturation one timely round trip (deadline passed, lease not expired) renews the lease from the moment of the request and leaves both sides in step again. |
| `PunctualRuns.AuthorityLastsIff` | `crates/agent/src/lib.rs:244-380` | From an admitted registration on, over every interleaving of forwarded commands, credentials, snapshots, timeouts and clock ticks in which neither end is stopped and nobody revokes: under an honest configuration the agent is authorised at every point at which it holds a lease if and only if every refresh exchange ends before the lease it renews expires. |
| `PunctualRuns.SteadyUntil` | `crates/agent/src/lib.rs:244-380` | As long as a run has been punctual, both ends are up, every request read was answered, and every lease not yet asked about will be asked about. |
| `RefreshCycles.AuthorityLasts` | `crates/agent/src/lib.rs:244-263` | Such runs exist for every length: on one fixed seven-step schedule per refresh, any number of timely refreshes keeps the agent authorised, each time for exactly one lifetime ahead. |
| `RefreshCycles.SaturationEndsAuthority` | `crates/control/src/seq.rs:23-25` | A run in which two successive leases carry the largest u64; the marker is then never cleared, so authority ends with the second lease in every continuation. |
| `CursorLaws.StepRunsAhead` | `crates/control/src/seq.rs:53-58` | No step moves the cursor back, and it covers every delivered command and one more, unless a revocation was delivered. |
| `CursorLaws.ResumeCompleteIff` | `crates/control/src/seq.rs:3-7` | Over every run, live or ended in any way, resuming after the cursor repeats no delivered command, and returns all the undelivered ones if and only if there are none or the cursor is below the number of the first. |
| `CursorLaws.ResumeSkipsNext` | `crates/control/src/seq.rs:3-7` | Unless a revocation ended the connection, that is the case exactly when nothing is undelivered: the first undelivered command is always skipped. |
| `CursorLaws.RevokedResumeIff` | `crates/control/src/seq.rs:3-7` | After a revocation it is the case exactly when nothing is undelivered or the cursor stayed at the last delivered number. |
| `CursorLaws.GrantSkipped` | `crates/agent/src/lib.rs:233-242` | The grant is on its way when the agent stops: resuming would return nothing. |
| `CursorLaws.RevokedMayResume` | `crates/agent/src/lib.rs:233-242` | A pending agent revoked and granted again before reading either: resuming would return exactly the grant. |
| `P2Estimator.P2Quantile.Observe` | `crates/common/src/p2_quantile.rs:83-171` | The in-place update of the marker arrays equals the specification step. |
| `P2Estimator.P2Quantile.Estimated` | `crates/common/src/p2_quantile.rs:71-79` | The getter, warm-up branch included. |
| `P2Estimator.P2Quantile.InitialiseMarkers` | `crates/common/src/p2_quantile.rs:91-110` | The fifth sample sorts the heights and sets positions, desired positions and increments. |
| `P2Estimator.P2Quantile.AdjustMarker` | `crates/common/src/p2_quantile.rs:144-168` | One interior marker moves by the parabolic step, or the linear one when that leaves the bracket. |
| `P2Laws.StreamTracks` | `crates/common/src/p2_quantile.rs:83-171` | After every stream: heights sorted, positions integral and strictly increasing from 1 to the count, desired positions in closed form, outer markers the exact extremes seen. |
| `P2Laws.EstimateInRange` | `crates/common/src/p2_quantile.rs:71-79` | From five samples on the estimate lies between the smallest and largest sample. |
| `P2Laws.WarmUpEstimate` | `crates/common/src/p2_quantile.rs:71-79` | Before five samples the estimate is the newest sample, or zero. |
| `P2Laws.WarmUpIsLargest` | `crates/common/src/p2_quantile.rs:67-79` | The documented "highest sample so far" holds in warm-up if and only if no earlier sample exceeds the newest. |
| `P2Laws.WarmUpNotLargest` | `crates/common/src/p2_quantile.rs:67-79` | The stream 5, 1 shows the documented value is not returned. |
| `P2Laws.ParabolicInterpolates` | `crates/common/src/p2_quantile.rs:151-158` | The parabolic candidate is the value at the new position of any quadratic through the three neighbouring markers. |
| `P2Laws.ParabolaUnique` | `crates/common/src/p2_quantile.rs:151-158` | Exactly one such quadratic exists. |
| `P2Steps.SampleSettles` | `crates/common/src/p2_quantile.rs:113-170` | From the fifth sample on, over every stream: a sample stretches the outer heights, moves the positions above it up by one and advances every desired position; then each interior marker in turn moves by one towards its desired position exactly when that is at least one away and the gap on that side exceeds one, landing on the unique quadratic through its neighbours or else on the chord; and the estimate is the middle height. |
| `P2Steps.AdjustedSettles` | `crates/common/src/p2_quantile.rs:144-168` | The same of one marker: when it moves, in which direction, and where it lands; otherwise position and height stay. |
| `P2Steps.LandingUnique` | `crates/common/src/p2_quantile.rs:151-166` | There is one such landing height, so these steps determine the next state. |
| `P2Steps.FiveSamples` | `crates/common/src/p2_quantile.rs:88-110` | After exactly five samples the heights are those samples in ascending order, the positions are 1 to 5, and the estimate is the third smallest. |
| `P2Steps.NonFiniteIgnored` | `crates/common/src/p2_quantile.rs:83-86` | A sample that is not finite changes nothing. |
| `P2Affine.StreamScales` | `crates/common/src/p2_quantile.rs:83-171` | Two estimators fed x and a*x + b (a > 0) keep identical positions and mapped heights over any stream. |
| `P2Affine.EstimateScales` | `crates/common/src/p2_quantile.rs:71-79` | Hence the estimate of the rescaled stream is a times the estimate plus b. |
| `OrderBook.LocalOrderBook.ApplySnapshot` | `crates/common/src/orderbook.rs:57-68` | The two rebuild loops produce the snapshot's sorted maps. |
| `OrderBook.LocalOrderBook.ApplyDelta` | `crates/common/src/orderbook.rs:71-91` | A stale delta changes nothing; a newer one patches both maps. |
| `OrderBook.LocalOrderBook.SweepVwap` | `crates/common/src/orderbook.rs:236-283` | The accumulating loop over a side computes the specified sweep, early exits included. |
| `OrderBook.SnapshotMeaning` | `crates/common/src/orderbook.rs:57-68` | A snapshot is a sorted map in which the last mention of a price wins. |
| `OrderBook.DeltaMeaning` | `crates/common/src/orderbook.rs:71-91` | A delta overrides exactly the prices it mentions, a zero quantity removing them. |
| `OrderBook.SnapshotIsDelta` | `crates/common/src/orderbook.rs:57-91` | Without zero quantities a snapshot is a delta onto an empty book. |
| `OrderBook.FeedKeepsBook` | `crates/common/src/orderbook.rs:57-91` | Every feed leaves both sides strictly sorted, and free of negative quantities if it carried none. |
| `BookLaws.UpdateMeaning` | `crates/common/src/orderbook.rs:57-91` | After every feed, one more update: a snapshot replaces both sides and the number; a delta numbered no later changes nothing; any other amends the bids by its bid list and the asks by its ask list, final mentions winning and zeros removing, and moves the number. |
| `BookLaws.TouchOfFeed` | `crates/common/src/orderbook.rs:94-116` | After every feed the best prices are the highest bid and the lowest ask and the mid half their sum, absent exactly when a side they need is empty. |
| `BookLaws.FacingBestFirst` | `crates/common/src/orderbook.rs:249-254` | A buyer meets all the asks from the lowest, a seller all the bids from the highest. |
| `SweepLaws.SweepFills` | `crates/common/src/orderbook.rs:236-283` | The filled quantity is the smaller of target and side depth, and `fully_filled` says truthfully which. |
| `SweepLaws.SweepAnswers` | `crates/common/src/orderbook.rs:236-245` | A sweep answers if and only if target, mid and side depth are positive. |
| `SweepLaws.SweepPriced` | `crates/common/src/orderbook.rs:263-283` | Every answer names the side and target asked for; its price times the filled quantity is the notional; and its impact times the mid is ten thousand times the adverse distance of that price from the mid, or zero. |
| `SweepLaws.SweepOptimal` | `crates/common/src/orderbook.rs:246-262` | The notional is the least a buyer can pay, and the most a seller can get, over all allocations of the filled quantity; some allocation attains it. |
| `SweepLaws.SweepMonotone` | `crates/common/src/orderbook.rs:236-291` | A larger order never gets a better average price nor a smaller impact. |
| `SweepLaws.VwapBeyondTouch` | `crates/common/src/orderbook.rs:236-283` | The average price is never better than the touch. |
| `SweepLaws.UncrossedImpact` | `crates/common/src/orderbook.rs:263-291` | On an uncrossed book the clamp never fires and impact is at least half the spread. |
| `QueueModel.QueuePos.OnTrade` | `crates/common/src/queue_model.rs:173-179` | A positive trade advances the front and the tally by its size; others are ignored. |
| `QueueModel.QueuePos.OnDepthChange` | `crates/common/src/queue_model.rs:192-248` | The in-place depth update equals the specified one, non-finite probabilities included. |
| `QueueModel.QueuePos.ConsumeFill` | `crates/common/src/queue_model.rs:262-270` | The overshoot below zero is returned and the front reset. |
| `QueueModel.DepthBounds` | `crates/common/src/queue_model.rs:192-248` | For any model the front moves by at most the unexplained decrease, never back, never beyond the book, and the tally restarts. |
| `QueueModel.FrontLosesRest` | `crates/common/src/queue_model.rs:192-248` | The decrease trades do not explain is split once: the back loses the model's clamped share, all of it for a non-finite answer, but no more than is there, and the front the rest; without one the front only drops to the book. |
| `QueueModel.TradesCountedOnce` | `crates/common/src/queue_model.rs:173-206` | However a volume is split into trades, the depth update reporting the same decrease subtracts it exactly once. |
| `QueueModel.FrontStaysIff` | `crates/common/src/queue_model.rs:222-247` | When exactly one update keeps the front non-negative. |
| `QueueModel.ModelSafeIff` | `crates/common/src/queue_model.rs:222-247` | For a given split, no later update drives the front negative if and only if the model gives the back at least its share. |
| `QueueModel.LinearScalesFront` | `crates/common/src/queue_model.rs:120-130` | Under exponent 1 a decrease scales the front with the book and never below zero. |
| `QueueModel.SquareGoesNegative` | `crates/common/src/queue_model.rs:120-130` | Exponent 2 with nine ahead, one behind and the level emptied leaves about -0.88. |
| `Simulator.Backtest.Run` | `crates/backtester/src/simulator.rs:202-445` | The event loop over the book and both tracked lists equals the specified run. |
| `Simulator.Backtest.Depth` | `crates/backtester/src/simulator.rs:234-353` | One snapshot: refresh the queues, rebuild the book, merge the new quotes when there is a mid. |
| `Simulator.Backtest.Merge` | `crates/backtester/src/simulator.rs:524-561` | Quotes at a tracked price keep its queue, others join at the back of the book quantity. |
| `Simulator.Backtest.DispatchTrade` | `crates/backtester/src/simulator.rs:571-642` | The in-order loop over tracked quotes equals the specified dispatch. |
| `SimulatorLaws.HitConserves` | `crates/backtester/src/simulator.rs:604-636` | What a touched quote absorbs is queue advanced plus quantity filled; it fills only once its queue is gone and never beyond its size. |
| `SimulatorLaws.OverfillIff` | `crates/backtester/src/simulator.rs:604-636` | A quote fills more than it absorbs if and only if its front was negative and the trade smaller than the quote. |
| `SimulatorLaws.DispatchBalances` | `crates/backtester/src/simulator.rs:571-642` | Over one trade, quantity consumed is queue advanced plus quantity filled, fills equal the size lost, and all fronts stay non-negative. |
| `SimulatorLaws.DispatchPrioritises` | `crates/backtester/src/simulator.rs:571-642` | A quote fills only behind an exhausted queue and tallies what it lost; a buyer reaches exactly the quotes at or below the trade price, a seller those at or above; and the trade passes a reached quote only by exhausting it. |
| `SimulatorLaws.FillsLabelled` | `crates/backtester/src/simulator.rs:616-629` | The fills of one trade belong, in order, to distinct quotes the trade reaches; each carries the next id, the side opposite to the taker, its quote's price and what the quote lost; no other quote changes. |
| `FillLaws.FillsBySide` | `crates/backtester/src/simulator.rs:354-399` | Over every run, fills booked as sales total exactly the size our asks lost to trades, and fills booked as purchases what our bids lost. |
| `FillLaws.AliveSnoc` | `crates/backtester/src/simulator.rs:640-641` | Exactly the quotes with size left stay after a trade, in order. |
| `FillLaws.SnapshotQuotes` | `crates/backtester/src/simulator.rs:292-353` | After every run, a snapshot of both sides leaves exactly the desired quotes resting, in order and size, new prices behind what the snapshot finally lists there; a snapshot with a side empty leaves the quotes that were there. |
| `FillLaws.SideQuotesSnoc` | `crates/backtester/src/simulator.rs:324-337` | Every desired pair contributes its quote of the side, in order. |
| `FillLaws.FirstMention` | `crates/backtester/src/simulator.rs:246-269` | The depth update reads the first mention of a price. |
| `AnchorLaws.RefreshFitsIff` | `crates/backtester/src/simulator.rs:258-290` | For any model, a depth update leaves no front beyond the rebuilt book if and only if no price's first mention in the snapshot exceeds its last. |
| `AnchorLaws.RunAnchored` | `crates/backtester/src/simulator.rs:249-337` | Over every run of such snapshots (first mention equal to last where a side is empty and the merge is skipped) and any model, each quote's last book quantity is the book's, and its front no larger. |
| `AnchorLaws.SnapshotHarmlessIff` | `crates/backtester/src/simulator.rs:249-337` | A snapshot keeps that after every such run, whatever is quoted, if and only if it meets the condition itself. |
| `AnchorLaws.QueueCarriesOver` | `crates/backtester/src/simulator.rs:524-561` | At a price that stays quoted the queue is the old one moved by exactly one depth update, to the first quantity listed there, which is the book's when prices are distinct. |
| `AnchorLaws.FallingRepeatBreaks` | `crates/backtester/src/simulator.rs:258-269` | A snapshot listing five, then one, at a quoted price leaves five ahead in a book of one. |
| `SimulatorLaws.RunBounded` | `crates/backtester/src/simulator.rs:202-445` | With a model favouring the back, over every run of non-negative quantities, repeated prices included, every front stays non-negative and fills stay within the traded volume. |
| `SimulatorLaws.ConservationIff` | `crates/common/src/queue_model.rs:222-247` | No run of non-negative quantities fills more than was traded if and only if the model always gives the back at least its share. |
| `QueueModel.ShareModelIff` | `crates/common/src/queue_model.rs:71-130` | A model of the shipped shape, weight of the back over the sum of weights, does so if and only if the weight is proportional to the quantity. |
| `SimulatorLaws.PowerConservesIff` | `crates/common/src/queue_model.rs:98-130` | Among weights normalised at one, such as every power, exactly the quantity itself (exponent 1) conserves. |
| `SimulatorLaws.LogOverfills` | `crates/common/src/queue_model.rs:70-96` | The default model, ln(1 + x) for any function with the laws of a logarithm, has a run that overfills. |
| `SimulatorLaws.ShippedModels` | `crates/common/src/queue_model.rs:70-130` | Exponent 1 conserves over all runs; exponent 2 and the default logarithmic model do not. |
| `Deduplicator.EventDeduplicator.Check` | `crates/backtester/src/deduplicator.rs:69-86` | The check marks the number, bumps the watermark, prunes, and answers as specified. |
| `Deduplicator.EventDeduplicator.MaybePrune` | `crates/backtester/src/deduplicator.rs:98-104` | Above the threshold only numbers above the cutoff survive. |
| `Deduplicator.CheckTracks` | `crates/backtester/src/deduplicator.rs:69-104` | One check keeps the window exact and bounded, and a prune's subtraction never saturates. |
| `Deduplicator.WindowExact` | `crates/backtester/src/deduplicator.rs:24-29` | Over every run: first sightings are always accepted, and within 50,000 of the largest number nothing else is. |
| `Deduplicator.WatermarkExact` | `crates/backtester/src/deduplicator.rs:69-86` | Over every run the watermark is the largest of the seed and the numbers checked. |
| `Deduplicator.SmallRunsExact` | `crates/backtester/src/deduplicator.rs:24-29` | Up to 100,000 distinct numbers, each is accepted exactly at its first occurrence. |
| `Deduplicator.BoundsAreTight` | `crates/backtester/src/deduplicator.rs:32-40` | With one number more, a number exactly 50,000 behind is accepted twice. |
| `Deduplicator.ExactUpToIff` | `crates/backtester/src/deduplicator.rs:24-40` | Repeats are rejected in every run of at most N distinct numbers if and only if N is at most 100,000. |
| `Deduplicator.ExactWithinIff` | `crates/backtester/src/deduplicator.rs:24-40` | Repeats lagging the largest number by less than K are always rejected if and only if K is at most 50,000. |
| `Replay.ReplayStore.Append` | `crates/controller/src/replay.rs:47-55` | The buffer of an agent is the last 1024 entries of its whole log. |
| `Replay.ReplayStore.ReplayAfter` | `crates/controller/src/replay.rs:62-84` | The answer is the retained entries after the cursor, with the gap flag as computed. |
| `Replay.ReplayStore.Forget` | `crates/controller/src/replay.rs:85-92` | Forgetting drops one agent and no other. |
| `Replay.RetainedMeaning` | `crates/controller/src/replay.rs:47-55` | The buffer holds all of the log, or its last 1024 entries. |
| `Replay.PayloadsSnoc` | `crates/controller/src/replay.rs:62-84` | One more command is replayed, last, if and only if its number is beyond the cursor. |
| `Replay.ReplayCompleteIff` | `crates/controller/src/replay.rs:57-84` | The answer is always a suffix of the agent's backlog, and all of it if and only if nothing after the cursor was evicted. |
| `Replay.GapHonestIff` | `crates/controller/src/replay.rs:57-84` | For every log and cursor, when the gap flag means that something is missing. |
| `Replay.NoGapMeansAll` | `crates/controller/src/replay.rs:57-84` | For a live cursor the log reaches, no gap is reported if and only if the whole backlog is returned. |
| `Replay.GapWithoutLoss` | `crates/controller/src/replay.rs:57-84` | A gap reported with nothing lost. |
| `Replay.LossWithoutGap` | `crates/controller/src/replay.rs:57-84` | One entry beyond the capacity and a zero cursor: a command is missing and no gap is reported. |
| `FailLadder.LevelIsHighestCrossed` | `crates/control/src/fail_ladder.rs:98-109` | On a valid ladder the level is that of the highest rung whose wait is over, none before the first. |
| `FailLadder.FromRungsIff` | `crates/control/src/fail_ladder.rs:85-94` | A ladder is accepted as it stands if and only if it has a rung and every rung waits longer than all before it; the two refusals are told apart. |
| `FailLadder.DefaultsAreValid` | `crates/control/src/fail_ladder.rs:111-150` | Both default ladders pass validation. |
| `LadderWalker.FailLadderWalker.PollAt` | `crates/agent/src/fail_ladder_walker.rs:56-76` | One poll fires everything up to the highest rung due and returns that rung, or nothing. |
| `LadderWalker.FailLadderWalker.IsComplete` | `crates/agent/src/fail_ladder_walker.rs:78-83` | Complete means every rung has fired. |
| `LadderWalker.FailLadderWalker.NextRungAt` | `crates/agent/src/fail_ladder_walker.rs:85-95` | The wait of the first rung not fired. |
| `LadderWalker.FiredIsPrefix` | `crates/agent/src/fail_ladder_walker.rs:56-76` | For any poll schedule, late or backwards, the rungs fired are exactly those the longest silence crossed. |
| `LadderWalker.FiredIff` | `crates/agent/src/fail_ladder_walker.rs:56-76` | For any poll schedule a rung has fired if and only if, at one of the polls, the time since the episode began had reached its wait. |
| `LadderWalker.EmissionIff` | `crates/agent/src/fail_ladder_walker.rs:56-76` | A poll emits a rung if and only if it is the highest due at that poll and was due at none before. |
| `LadderWalker.ActionsClimb` | `crates/agent/src/fail_ladder_walker.rs:56-76` | Rung indices emitted strictly increase: no rung fires twice. |
| `LadderWalker.LastLevelIsLevelAt` | `crates/control/src/fail_ladder.rs:101-109` | The last level the walker emitted is the stateless level at the longest silence. |
| `LadderWalker.RepeatedPollIsSilent` | `crates/agent/src/fail_ladder_walker.rs:46-54` | A poll no later than an earlier one emits nothing. |
| `LadderWalker.CompleteIff` | `crates/agent/src/fail_ladder_walker.rs:78-95` | The walk is complete if and only if the longest silence reached the last rung; until then the next wake-up lies beyond it. |
| `Registry.StrategyRegistry.Reconcile` | `crates/agent/src/registry.rs:455-538` | The reconcile loops satisfy the reconcile relation, whatever order tasks are spawned in. |
| `Registry.StrategyRegistry.PatchVariables` | `crates/agent/src/registry.rs:835-845` | A patch overlays one entry's variables and nothing else; unknown ids change nothing. |
| `Registry.StrategyRegistry.AbortEverything` | `crates/agent/src/registry.rs:891-896` | Every running task is aborted, once. |
| `Registry.LastWins` | `crates/agent/src/registry.rs:456-459` | Of descriptors with one id the last is wanted. |
| `Registry.ReconcileConverges` | `crates/agent/src/registry.rs:450-538` | Running ids are the desired ids; the last descriptor of an id leaves an entry of its own signature untouched, task and live variables, and otherwise is shown, symbol, template, variables, credentials and signature, by an entry with a new task. |
| `Registry.ReconcileAborts` | `crates/agent/src/registry.rs:461-490` | Exactly the running tasks that no last descriptor matches in id and signature are aborted. |
| `Registry.RepeatIsNoOp` | `crates/agent/src/registry.rs:450-538` | Reconciling twice with one slice spawns and aborts nothing the second time. |
| `Registry.RunConserves` | `crates/agent/src/registry.rs:455-538` | Over every run each spawned task is exactly one of running under one id or aborted. |
| `Registry.LiveEntryHistory` | `crates/agent/src/registry.rs:828-845` | Over every run each live entry was spawned by one reconcile from the last descriptor of its id and shows that descriptor, its variables overlaid by exactly the patches since. |
| `Registry.LastPatchWins` | `crates/agent/src/registry.rs:843-845` | Of the patches of a key since then the last wins. |
| `Registry.UnpatchedKeeps` | `crates/agent/src/registry.rs:843-845` | A key never patched keeps the value of the descriptor, or its absence. |
| `Registry.AbortAllEnds` | `crates/agent/src/registry.rs:891-896` | Over every run, aborting everything leaves nothing running and every task ever spawned aborted. |
| `TraceDiff.Collect` | `crates/agent/src/graph_replay.rs:126-146` | The table holds each kind and port's serialised values, sorted, sources skipped. |
| `TraceDiff.DivergingKinds` | `crates/agent/src/graph_replay.rs:148-165` | The kinds reported, ascending and without repeats, are exactly those that on some port show different multisets of values. |
| `TraceDiff.AggregateGrows` | `crates/agent/src/graph_replay.rs:126-141` | What is compared: one more output adds its value under its node's kind and its port, unless the node is a source; nothing else does. |
| `TraceDiff.DivergesSymmetric` | `crates/agent/src/graph_replay.rs:148-165` | Swapping the traces changes nothing. |
| `TraceDiff.ReorderingIsInvisible` | `crates/agent/src/graph_replay.rs:126-146` | Reordering the nodes of a trace changes nothing. |
| `TraceDiff.SourcesAreInvisible` | `crates/agent/src/graph_replay.rs:128-131` | Source nodes never matter. |
| `Sorting.SortCanonical` | `crates/agent/src/graph_replay.rs:142-145` | Sorting is a canonical form: equal results if and only if equal multisets. |
| `Stress.GenerateTicks` | `crates/backtester/src/stress.rs:232-301` | One tick per minute, each a function of its ramp value. |
| `Stress.RampInUnit` | `crates/backtester/src/stress.rs:244-265` | The ramp stays in [0, 1], is 1 at the peak sample and only there, and 0 at both ends. |
| `Stress.RampLegs` | `crates/backtester/src/stress.rs:244-265` | It climbs strictly to the peak and falls strictly after it. |
| `Stress.SampleCountMeaning` | `crates/backtester/src/stress.rs:233-234` | One sample a minute over the duration, at least one. |
| `Stress.PeakIndexMeaning` | `crates/backtester/src/stress.rs:235-236` | The peak is the sample whose minute holds the peak time, or the last one. |
| `Stress.TicksPiecewiseLinear` | `crates/backtester/src/stress.rs:242-299` | Every series is linear from its calm value (the baseline, one basis point to either side, 100, one half, one) up to its peak value at the peak sample and back down to the last. |
| `Stress.TicksWithinShock` | `crates/backtester/src/stress.rs:267-296` | Mid, depth, volume and sell share lie between calm and peak values and reach the peak at the peak sample; the spread never crosses. |
| `Stress.MaxDrawdown` | `crates/backtester/src/stress.rs:509-517` | The one-pass drawdown is the largest fall from any earlier to any later point of the curve started at zero. |
| `Paper.PaperTrader.PlaceOrder` | `crates/backtester/src/paper.rs:41-56` | A new order rests with its whole size remaining. |
| `Paper.PaperTrader.CancelOrder` | `crates/backtester/src/paper.rs:58-61` | Cancelling removes one order and tells whether it was there. |
| `Paper.PaperTrader.OnTrade` | `crates/backtester/src/paper.rs:68-124` | Every crossed order and no other gets one fill; orders, balances, log and numbering move together. |
| `Paper.PaperTrader.ApplyFill` | `crates/backtester/src/paper.rs:126-140` | One fill settles both assets. |
| `PaperLaws.OrderTraded` | `crates/backtester/src/paper.rs:68-124` | One trade, for each resting order: it is crossed exactly when the taker is on the other side and the price at or through its own; then it gets one fill at its own price of the smaller of what it wants and what is traded, and leaves exactly when it wants no more; otherwise it stays as it was. |
| `PaperLaws.NothingElseTraded` | `crates/backtester/src/paper.rs:68-124` | Nothing is filled or left resting that was not resting, and no order is filled twice. |
| `PaperLaws.OtherAssetsKept` | `crates/backtester/src/paper.rs:126-140` | Over every run, assets other than the two traded keep their balances, or their absence. |
| `PaperLaws.BooksBalance` | `crates/backtester/src/paper.rs:68-140` | Over every run trade ids count up from one and balances are the initial ones with the logged fills settled. |
| `PaperLaws.PnlIsGains` | `crates/backtester/src/paper.rs:157-162` | Over every run and mark, profit is the starting value plus the signed quantity of each fill times its distance from the mark. |
| `PaperLaws.OrdersAccounted` | `crates/backtester/src/paper.rs:41-124` | Over every run an order's fills never exceed its size, and while open its size is what remains plus its fills. |
| `PaperLaws.TradeNotOverfilledIff` | `crates/backtester/src/paper.rs:68-86` | The fills of one trade stay within its quantity if and only if, before it, at most one crossed order wants anything or all crossed orders together want no more than is traded. |
| `PaperLaws.OneTradeFillsTwo` | `crates/backtester/src/paper.rs:68-86` | Two buys of one unit and a sale of one: the run fills two. |

## Left out

- Handlers run to completion before anything else happens to their side: interleavings inside one handler, the `tokio` select and timeout machinery, and back-off are not modelled; a step may come at any time.
- A connection starts with a fresh session and a fresh agent; reconnecting and the persisted cursor file are outside one run; what a resume would deliver is `ResumeSkipsNext`.
- Ed25519 signatures, TLS, WebSocket framing and file persistence: the queues are assumed to deliver in order, without loss, until an end goes away.
- The policy is fixed during a run; changing the runtime settings while a session lives is not modelled.
- The f32 product behind the refresh offset is an arbitrary function of the lifetime; `AdmittedSettingsAreHonest` uses only that rounding is monotone and keeps whole numbers below 2^24.
- SessionLaws.RegistrationDecides: a handler may forward a credential at any time in the model; the code does so only to agents the fleet view lists as accepted or without a state (`crates/controller/src/http.rs:746-753`), a view that is not modelled.
- RefreshLoop.DishonestTurnsAway: for an offset at or beyond the lifetime its run needs the pump's timer, which wakes at the earlier of deadline and expiry, to fire late; a pump that never fires late would expire instead.
- Agent-side envelope errors (a command without payload) and the controller's own, which end a session without touching its lease, are covered only as a side stopping.
- LeaseAgent.LeaseClient.Command: deployment commands are one case with an optional reply; what they do to the registry is modelled separately.
- P2Estimator.P2Quantile.Observe: floating-point rounding is not modelled; the reals make the invariants exact.
- QueueModel.ShareModelIff: `powf` and `ln` themselves are not modelled; any weight function is allowed, and for the logarithm only its functional equation and sign are used.
- Simulator.Backtest.Run: the strategy is an input (the quotes of each snapshot); candles, volatility, profit tracking, latency stamps and the price-cross fill model are left out.
- OrderBook.LocalOrderBook.SweepVwap: division of `Decimal` values is exact, without the 28-digit limit.
- Book imbalance, weighted mid and depth within a percentage are read-only sums over the same sorted maps; no modelled component reads them.
- Replay.ReplayStore.ReplayAfter: a cursor at the largest `u64` overflows `after + 1` in the code and is not modelled; nor are poisoned locks.
- Deduplicator.EventDeduplicator.Check: numbers are unbounded naturals; nothing in it depends on the width of `u64`.
- Registry.StrategyRegistry.PatchVariables: hot-reload overrides sent to a running engine and their translation are left out; only the recorded variables are modelled.
- Registry.StrategyRegistry.Reconcile: the signature is an arbitrary function of the descriptor, so two descriptors may collide as hashes do.
- TraceDiff.DivergingKinds: values arrive already serialised; how values are turned into strings is not part of this model.
- Stress.GenerateTicks: rounding of `Decimal` quotients is not modelled; portfolio, VaR guard, kill switch, hedge optimizer and the recovery time of the stress run are left out.
- Paper.PaperTrader.OnTrade: time stamps are left out; as in the code, a trade carries no symbol and settles the same two assets for every order.
- PaperLaws.OrdersAccounted: assumes that order ids are never reused, as random UUIDs are not, and non-negative quantities.
- Deserialising a fail ladder can bypass its validation; only validated ladders are walked.
- Approval store, fleet state, metrics, HTTP handlers and settings structs: the modelled components read nothing from them but the stored approval, the policy and the operator's events, which are inputs.
