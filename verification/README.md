# Verified model of the trading assistant's hard core

This project models, in Dafny, the parts of the trading assistant where a mistake costs most, and proves what they
promise over every input, every run or every reachable state. It covers six components.

- **Order and plan cancellation** (`OrderLedger`, `PlanCancel`). The order table, the drift breaker and the audit log are
  one durable state; every committed transaction is one step of a run, and a crash is the end of a run. The broker,
  reconciliation and the rule refresh are oracles that may answer anything, raise, or commit any number of steps that
  keep the contract below. Live cancel, plan quiesce and the post-exit worklist are methods that only take legal steps,
  so the theorems about runs hold of them.
- **Startup gate** (`StartupGate`, `StartupEpoch`, `Positions`). One row with a generation counter, the ledger all
  processes share, the broker's positions, and any number of processes whose passes interleave at every step. A sync
  event reports the ledger as it is, a comparison uses the positions fetched and the fills of the ledger. The epoch of
  one process is a method proved to be one of those interleavings.
- **Exit reservations** (`ExitReservation`, `ExitRuns`), **rules and their groups** (`RuleGroups`), and **the rule
  migration** (`RulePayload`, `RuleMigration`, `RuleMigrationLaws`, `DecimalScalar`).
- **Release scanner** (`RoutePath`, `RouteGraph`, `RouteExactness`, `RouteInlining`; `BlobFraming`, `BlobHistory`,
  `BlobRoundTrip`; `AliasForest`, `AliasEntries`) and **bounded broker graph** (`BrokerGraph`).
- **Release verifier** (`ReleaseEvidence`, `JUnitEvidence`, `ReleaseVerifier`).
- **Autopilot cycles** (`Autopilot`).

`dafny verify dfyconfig.toml` checks everything.

## Assumptions the model makes explicit

- Background writers (`OrderLedger.BackgroundStep`), which run inside the writer barrier of one operation: orders are
  neither added nor deleted, statuses move along the legal transitions, so terminal states are absorbing, cancel intents
  are left alone, versions do not fall, the drift breaker is not reset, and the `indeterminate_cancel` code is not
  invented. Latching or unlatching fill truth is allowed.
- A reconciliation that reports broker drift or unresolved orders has tripped the breaker before it returns
  (`TradingService.Reconcile`), as `_trip_reconciliation_faults` does; `SyncOpenOrders` relies on it.
- Other processes commit any legal steps of the ledger, at any point between two steps of a startup pass
  (`TradingService.OtherCommits`), and the broker trades at any point. A legal step may record new orders, without a
  cancel intent, and may reset the breaker; it deletes no order. A sync is one writer interval, since its callers hold
  the barrier that recording an order or resetting the breaker also takes.
- The query for orders that need a broker cancel (`TradingService.requiring`) is an arbitrary function of the durable
  state into the orders it joins with plan rules.
- Other rule writers (`RuleGroups.RuleService.OtherWriters`) keep groups and rules in agreement and move no rule to
  another group.
- Clocks are arbitrary except where a lemma says that they do not run backwards. Upper-casing, decimal reading of JSON
  numbers, git, pytest, JUnit files and repository snapshots are parameters.
- Decimal quantities are reals where rounding is not the point; `DecimalScalar` models coefficient, exponent and the
  rounding to 28 digits.

## What turned out not to hold, and exactly when it does

- `_optional_positive_decimal` normalises, and so rounds to 28 significant digits, before it looks at digits. A value
  such as 1 + 10^-28 passes as a NUMERIC(20, 6) (`WideValueAccepted`). Acceptance is exact for every value of at most 28
  significant digits (`AcceptedIffRepresentable`), and in general it is the representability of the rounded value
  (`AcceptedIffRounded`).
- `upgrade` does not treat a legacy `pending` rule as resumable, while the running service does. Groups and rules agree
  after the upgrade if and only if no pending row sits in a group with a winner or without an active row
  (`UpgradeAgreesIff`, `PendingRowStranded`); with the five other states they always agree (`LegacyStatesAgree`). The
  state word first appears with a later migration, whose downgrade refuses while such rows exist
  (migrations/versions/20260724_0009_fill_activated_plan_rules.py:122-160), so the failing input needs a row no known
  revision before this one writes.
- `available_reduce_qty` does not count proposed orders, and the risk check at submission guards sells only. Sells are
  safe without any guard at approval: every claim passes a check against all pending sells, so no run carries a position
  below flat (`SellsNeverCrossFlat`). Buys that cover a short are not checked again: two covers of a whole short, each
  within what is available when proposed, can both be submitted and carry it through flat (`TwoCoversCrossFlat`). That
  concerns covers outside a plan, since plan exits have a guard of their own, and takes the other limits of the risk
  check, on notional, position size and buying power, to pass; the projected position is no larger than the short. A
  claim opens the way through flat if and only if its quantity does not fit beside what is at the broker
  (`ClaimCrossesIffUnfit`), and buys whose claims fit never cross (`FittingBuysNeverCrossFlat`).
- A convertible row does not always come back from downgrade and upgrade. It does if and only if its normalised ticker
  is read unchanged and, for a row stored as typed time, its deadline is the one of its column (`PayloadStable`). A
  typed deadline that differs from the column is lost (`TypedDeadlineLost`). `_normalized_ticker` checks the length
  before it upper-cases, so a ticker of sixteen characters that ends in a sharp s becomes one of seventeen, which the
  next upgrade refuses (`LongTickerLost`); a normalised ticker is read unchanged exactly when it has at most sixteen
  characters (`TickerStableIff`).
- Inlining an include keeps the effective routes and the number of findings whenever the included router lies on no
  include cycle, whatever else the graph holds (`InliningPreservesEndpoints`). On a cycle it can list a route twice
  (`CyclicInlineRepeats`). A walk without findings has met no cycle (`SilentMeansNoCycle`).
- `quiesce_trade_plan_orders` counts as failed, and trips drift for, an order that is finished when its turn comes, which
  an earlier reconciliation of the same loop can bring about (`FinishedBeforeItsTurn`). A finished order is counted as
  failed in exactly that case (`QuiesceOne`). The model follows the code.

## Model

| member | source | states |
|---|---|---|
| OrderLedger.TerminalAbsorbs | src/trading_assistant/db/models.py:85-156 | In every run a terminal order keeps its status in every later durable state. |
| OrderLedger.IntentHeldUntilSettled | src/trading_assistant/service.py:1863-2383 | An open cancel intent that is later gone, settled, or back from indeterminate to requested was settled by some commit in between, on a terminal order with exact fill truth unless the order never left the local states. |
| OrderLedger.SettledHasCause | src/trading_assistant/service.py:1863-2383 | A settled intent anywhere in a run was written by a commit on a terminal order, with the fill latch clear unless the order was still local, and the order has that status ever since. |
| OrderLedger.VersionCountsChanges | src/trading_assistant/service.py:1863-1896 | From any commit at which an order exists, its version rises by at least the number of its intent changes since. |
| OrderLedger.StepFailClosed | src/trading_assistant/service.py:2233-2308 | Every legal commit keeps that an indeterminate-cancel code comes with its audit row, and keeps the tripped breaker that goes with it if and only if it is not a reset while some order carries the code. |
| OrderLedger.RunFailClosed | src/trading_assistant/service.py:2233-2308 | The same at every crash point of every run as long as no operator resets the breaker. |
| OrderLedger.TrippedBeforeLatched | src/trading_assistant/service.py:2240-2307 | The durable state before the one in which the code first appears already had the breaker tripped; latch and audit row appear together. |
| OrderLedger.LatchedHasCause | src/trading_assistant/service.py:2240-2307 | In every run, resets included, an order that carries the code got it at a commit that followed a tripped breaker and latched the order, and the audit row is durable. |
| PlanCancel.LatchIsLegal | src/trading_assistant/service.py:2252-2301 | With the breaker tripped, the latch transaction is a legal step that touches one order's intent only. |
| PlanCancel.IntentIsLegal | src/trading_assistant/service.py:1863-1896 | Settling on a terminal order with clear latch (or from a local state) and requesting on an intent that is not indeterminate are legal steps, alone or with the breaker trip. |
| PlanCancel.RequestIsLegal | src/trading_assistant/service.py:1996-2020 | Recording a request keeps an open intent as it is, opens one otherwise, and is a legal step. |
| PlanCancel.TallyStep | src/trading_assistant/service.py:2073-2200 | Handling one more id keeps every earlier verdict: canceled ids settled and terminal, failed ids open with drift tripped, counters equal to the ids. |
| PlanCancel.IntentsAreStuck | src/trading_assistant/service.py:2062-2200 | When no open intent is unseen, the open intents are exactly the ids counted as failed. |
| PlanCancel.TradingService.LatchIndeterminate | src/trading_assistant/service.py:2233-2308 | Breaker first, then latch and audit together; a crash or an exception between the two commits leaves exactly the breaker trip, and the order unlatched. |
| PlanCancel.TradingService.ConfirmCancel | src/trading_assistant/service.py:2310-2383 | An open intent is settled exactly when the order is terminal with exact fill truth; the answer says which, and why not. |
| PlanCancel.TradingService.CancelLiveOrder | src/trading_assistant/service.py:2202-2383 | Success means a terminal order with exact fill truth (canceled, when the plan lifecycle is settled too); two broker failures leave exactly the two latch commits; no other order's intent moves. |
| PlanCancel.TradingService.CancelOrder | src/trading_assistant/service.py:1817-1861 | An answer is always followed by its audit row; success means canceled with exact fill truth. |
| PlanCancel.TradingService.CancelAfterExit | src/trading_assistant/service.py:2091-2199 | Canceled means settled and terminal; failed means the id is unknown, or the order is unfinished, its intent open and drift tripped. |
| PlanCancel.TradingService.QuiesceOne | src/trading_assistant/service.py:1924-2041 | The same verdicts for one order of a quiesced plan; an order finished when its turn comes is counted as failed with an open intent and drift tripped, and an order counted as failed ends finished if and only if it was finished then. |
| PlanCancel.FinishedBeforeItsTurn | src/trading_assistant/service.py:1915-1995 | An order unfinished when the ids are listed can be finished by background commits before its turn. |
| PlanCancel.TradingService.QuiesceTradePlanOrders | src/trading_assistant/service.py:1897-2060 | Every order unfinished at the start counts once; remaining is the number still unfinished; a report without failures means no order of the plan is live or without exact fill truth. |
| PlanCancel.TradingService.CancelBatch | src/trading_assistant/service.py:2091-2199 | One batch of candidates is handled id by id, each once, and the counters grow by its size. |
| PlanCancel.TradingService.CancelPlanOrdersAfterExit | src/trading_assistant/service.py:2062-2200 | The worklist terminates on every ledger although candidates change while it runs; every id is handled once, canceled plus failed is the number seen, no candidate is left unseen, open intents are exactly the failed ids. |
| PlanCancel.TradingService.SyncOpenOrders | src/trading_assistant/service.py:1460-1590 | Reports the open intents as remaining, and ends with no failure and no open intent or with drift tripped. |
| Positions.BrokerPositions | src/trading_assistant/service.py:2445-2448 | For every ticker the map holds the broker's last word, 0 when absent. |
| Positions.LocalPositions | src/trading_assistant/service.py:2449-2456 | For every ticker the map holds the signed sum of the trusted fills. |
| Positions.PositionDrift | src/trading_assistant/service.py:2445-2465 | The drift holds exactly the tickers on which the two differ, with both quantities; it is empty if and only if they agree on every ticker. |
| StartupGate.GenerationGrows | src/trading_assistant/orders/startup.py:156-215 | In every interleaving generations never fall, and stay equal exactly while no require happens. |
| StartupGate.ReachableRows | src/trading_assistant/orders/startup.py:156-347 | Every reachable row has current status exactly when its completed generation is the newest and a completion time is stored. |
| StartupGate.CommitIsCertified | src/trading_assistant/service.py:1323-1458 | A successful completion of generation g comes from one process that began after g was opened, then ended a sync without failures with no open cancel intent in the ledger, then fetched broker positions that equal the trusted fills of the ledger for every ticker, with no newer generation opened up to the commit. |
| StartupGate.CurrentIsCertified | src/trading_assistant/service.py:1323-1458 | The same for every reachable state whose row says current. |
| StartupGate.ReadyIsCertified | src/trading_assistant/orders/startup.py:391-421 | Whoever is told that a generation is current is told about the newest one, with that proof behind it. |
| StartupGate.ProofStillHolds | src/trading_assistant/service.py:1337-1458 | As long as nobody trades and no commit touches orders or fills, what was proved is still true: no open cancel intent, and the broker holds what the trusted fills add up to. |
| StartupGate.CommitRefusedIffOvertaken | src/trading_assistant/orders/startup.py:217-280 | A clean pass is accepted if and only if no require happened since it began, and acceptance is exactly what makes its generation current. |
| StartupGate.CurrentUntilRequired | src/trading_assistant/orders/startup.py:217-347 | Stale completions and failures never change a current row; only a require does. |
| StartupGate.RowsValidate | src/trading_assistant/orders/startup.py:47-120 | Under a clock that does not run backwards every reachable row passes the snapshot validation, so current means the stored status. |
| StartupEpoch.Epoch.RequireGeneration | src/trading_assistant/orders/startup.py:156-215 | Opens exactly the next generation, after which no query finds the gate current; refused when disabled. |
| StartupEpoch.Epoch.ReconcilePositions | src/trading_assistant/service.py:2416-2498 | Reconciled if and only if the positions fetched and the trusted fills of the ledger agree on every ticker, and that verdict is what the pass records; drift trips the breaker in the same commit as the audit row. |
| StartupEpoch.Epoch.ObserveOrders | src/trading_assistant/service.py:1361-1366 | The report recorded is the one the sync returned, and it names exactly the intents open in the ledger then. |
| StartupEpoch.Epoch.Observe | src/trading_assistant/service.py:1361-1395 | Orders are synced before positions are compared, the pass records exactly what the two returned, and the trace shows both against the ledger of their moment. |
| StartupEpoch.Epoch.Conclude | src/trading_assistant/service.py:1397-1458 | A pass with faults fails; one without commits only if its generation is still the newest, and then it is certified. |
| StartupEpoch.Epoch.AlreadyCurrent | src/trading_assistant/service.py:1338-1357 | The shortcut answers yes only for a generation that is current and certified. |
| StartupEpoch.Epoch.ReconcileStartupEpoch | src/trading_assistant/service.py:1323-1458 | Ready is returned only for the newest generation and only with such a proof, found by this process or by another; a missing generation is reported exactly when the gate is disabled or never opened. |
| ExitReservation.ReservedQty | src/trading_assistant/service.py:2787-2801 | The loop computes the total unfilled part of the matching reserving orders, notional ones at the observed price. |
| ExitReservation.AvailableReduceQty | src/trading_assistant/service.py:2754-2802 | Returns what the reservations leave of the reducible position, 0 for an unknown side or a flat position. |
| ExitReservation.FitsIffAvailable | src/trading_assistant/service.py:2754-2802 | A positive quantity is within what is available if and only if it fits beside the reservations already made. |
| ExitReservation.ReservedSells | src/trading_assistant/orders/snapshot.py:620-758 | The loop computes what pending sells other than the order itself still ask for. |
| ExitRuns.StepKeepsCovered | src/trading_assistant/service.py:2754-2802 | Every event keeps what is outstanding on a side within the position it reduces, whatever happens on the other side, if orders fit when they start to count; the position then moves toward flat only. |
| ExitRuns.NeverThroughFlat | src/trading_assistant/service.py:2754-2802 | Over any run of exits that reserve no more than is available when they start to reserve, with partial fills recorded late and cancels, reservations stay covered on both sides and the position only shrinks toward flat, long or short. |
| ExitRuns.SellsNeverCrossFlat | src/trading_assistant/risk/engine.py:201-210 | Over any run with unguarded approvals and any buys, the risk check that every submission repeats keeps sells covered, and a position that is not short never becomes short. |
| ExitRuns.AllowedSellFits | src/trading_assistant/orders/submission.py:116-128 | A sell the risk check allows fits beside what is at the broker, although fills may not be recorded yet. |
| ExitRuns.CanCrossIffUncovered | src/trading_assistant/service.py:2754-2802 | Executions can carry the position through flat if and only if more is outstanding at the broker than can be reduced. |
| ExitRuns.ClaimCrossesIffUnfit | src/trading_assistant/orders/submission.py:173-249 | A submission opens the way through flat if and only if its quantity does not fit beside what is at the broker; a sell always fits. |
| ExitRuns.FittingBuysNeverCrossFlat | src/trading_assistant/orders/submission.py:173-249 | Buys that fit when submitted never carry a short through flat, over any run. |
| ExitRuns.TwoCoversCrossFlat | src/trading_assistant/risk/engine.py:100-114 | For every short position, two covers that are each within what is available when proposed are both submitted, the second does not fit, and executions can carry the position through flat. |
| RuleGroups.CancelKeepsAgreement | src/trading_assistant/service.py:3033-3176 | Cancelling a resumable rule, and closing its group when no sibling can run, keeps groups open exactly while one of their rules can run. |
| RuleGroups.RuleService.CancelRule | src/trading_assistant/service.py:3033-3176 | Keeps that agreement on every path; an invalid key, a refusal or a replay changes nothing of its own; success is a commit of the cancellation with its audit row or a replay of one. |
| RuleGroups.RuleService.CancelMany | src/trading_assistant/service.py:3033-3176 | Any sequence of cancellations, rollbacks and replays keeps the agreement. |
| RulePayload.ConditionRoundTrip | migrations/versions/20260724_0004_rule_leases.py:84-132 | Every legacy condition is converted, and reverting gives it back exactly. |
| RulePayload.ActionRoundTrip | migrations/versions/20260724_0004_rule_leases.py:135-158 | Reverting a converted action gives it back up to an explicit market order type. |
| RulePayload.ActionStable | migrations/versions/20260724_0004_rule_leases.py:135-158 | Converting the reverted action again gives the same typed action. |
| RulePayload.ConditionStable | migrations/versions/20260724_0004_rule_leases.py:410-445 | Converting the reverted condition again gives the same typed condition if and only if it is not a stored deadline that the deadline column does not repeat. |
| RulePayload.TypedDeadlineLost | migrations/versions/20260724_0004_rule_leases.py:429-430 | A stored deadline that differs from the column is lost: the second conversion gives the column's deadline. |
| RuleMigration.GroupKeyMeaning | migrations/versions/20260724_0004_rule_leases.py:205-210 | Two rows have one group key exactly when they share a plan, or have none and are one row. |
| RuleMigration.Validate | migrations/versions/20260724_0004_rule_leases.py:161-224 | Passes exactly when every row that can still run converts. |
| RuleMigration.RuleStore.Upgrade | migrations/versions/20260724_0004_rule_leases.py:213-379 | Aborts with nothing written, exactly when a runnable row does not convert or a group has two winners; otherwise writes the migrated rows and groups. |
| RuleMigration.RuleStore.Downgrade | migrations/versions/20260724_0004_rule_leases.py:410-445 | Every row becomes its reverted form, typed or not. |
| RuleMigrationLaws.SharedGroupMeaning | migrations/versions/20260724_0004_rule_leases.py:205-331 | After the upgrade two rules share a group if and only if they are one row or name one plan. |
| RuleMigrationLaws.AtMostOneWinner | migrations/versions/20260724_0004_rule_leases.py:229-236 | A group has at most one winning rule. |
| RuleMigrationLaws.GroupPointsAtWinner | migrations/versions/20260724_0004_rule_leases.py:300-331 | A migrated row in a winning state belongs to the group of its key, and that group's terminal rule and state are this row's. |
| RuleMigrationLaws.UpgradeAgreesIff | migrations/versions/20260724_0004_rule_leases.py:300-379 | The upgraded tables have groups open exactly while a rule can run if and only if no pending row is stranded. |
| RuleMigrationLaws.LegacyStatesAgree | migrations/versions/20260724_0004_rule_leases.py:300-379 | With states active, processing, triggered, failed and canceled the agreement always holds. |
| RuleMigrationLaws.PendingRowStranded | migrations/versions/20260724_0004_rule_leases.py:305-308 | Tables that hold the upgrade of one pending row have a group and a rule that disagree. |
| RuleMigrationLaws.PayloadRoundTrip | migrations/versions/20260724_0004_rule_leases.py:333-445 | Upgrade then downgrade, row by row: unconverted rows untouched, legacy conditions restored exactly, actions up to the default order type. |
| RuleMigrationLaws.PayloadStable | migrations/versions/20260724_0004_rule_leases.py:161-202 | The row that upgrade and downgrade leave converts again, to the same typed payload, if and only if the normalised ticker is read unchanged and a typed deadline repeats its column. The row's two scalars are read the same in canonical form. |
| RuleMigrationLaws.TickerStableIff | migrations/versions/20260724_0004_rule_leases.py:36-42 | A normalised ticker that trimming and upper-casing leave alone is read unchanged if and only if it has at most sixteen characters. |
| RuleMigrationLaws.LongTickerLost | migrations/versions/20260724_0004_rule_leases.py:36-42 | A runnable row whose sixteen-character ticker grows to seventeen when upper-cased does not convert again after downgrade, so the next upgrade aborts. |
| DecimalScalar.FitsIffRepresentable | migrations/versions/20260724_0004_rule_leases.py:62-70 | The digit counting accepts a stripped value exactly when it is k / 10^scale with 0 < k < 10^precision. |
| DecimalScalar.AcceptedIffRounded | migrations/versions/20260724_0004_rule_leases.py:45-71 | Without a maximum a scalar is accepted exactly when its value rounded to 28 digits is representable in the column. |
| DecimalScalar.AcceptedIffRepresentable | migrations/versions/20260724_0004_rule_leases.py:45-71 | Up to 28 significant digits acceptance is exactly representability of the value itself, for every precision and scale. |
| DecimalScalar.WideIsNeverRepresentable | migrations/versions/20260724_0004_rule_leases.py:45-71 | Beyond 28 significant digits no column of at most 28 digits holds the value. |
| DecimalScalar.WideValueAccepted | migrations/versions/20260724_0004_rule_leases.py:45-71 | Yet such a value is accepted: 1 + 10^-28 for a NUMERIC(20, 6). |
| RoutePath.RouteJoinAssociative | scripts/check_release_safety.py:1612-1623 | Joining paths is associative on all strings, empty and all-slash ones included. |
| RouteGraph.RouteScanner.Walk | scripts/check_release_safety.py:2457-2506 | Terminates on every finite include graph, cyclic ones included, and appends the entries and findings of the visit. |
| RouteGraph.RouteScanner.EffectiveRoutes | scripts/check_release_safety.py:2451-2509 | Returns the visit of the root with an empty prefix and nothing active. |
| RouteExactness.VisitMatches | scripts/check_release_safety.py:2457-2506 | Entry by entry a visit reports places of the graph, each with the prefixes along its include path. |
| RouteExactness.LocsDistinct | scripts/check_release_safety.py:2457-2506 | No place is reported twice. |
| RouteExactness.LocsComplete | scripts/check_release_safety.py:2457-2506 | Without findings no place is missed. |
| RouteExactness.NoFindingsAcyclic | scripts/check_release_safety.py:2462-2473 | Without findings no include path meets an object twice. |
| RouteExactness.WalkIsSound | scripts/check_release_safety.py:2451-2509 | What is reported is real and reported once, even beside findings. |
| RouteExactness.WalkIsExact | scripts/check_release_safety.py:2451-2509 | Without findings the result corresponds one to one to the routes and mounts at the end of all include paths, each path the join of all prefixes, and the graph is acyclic from the root. |
| RouteExactness.SilentIffResolvable | scripts/check_release_safety.py:2451-2509 | The walk records no finding exactly on graphs that are acyclic from the root with every prefix static and every include resolved. |
| RouteInlining.FewerActive | scripts/check_release_safety.py:2462-2475 | Active keys that no include path leads to make no difference to a visit. |
| RouteInlining.SilentFewerActive | scripts/check_release_safety.py:2462-2475 | A visit without findings does not depend on the active keys. |
| RouteInlining.InliningPreservesEndpoints | scripts/check_release_safety.py:2451-2509 | Replacing a non-mount include anywhere in the graph by its child's rewritten routes and includes leaves the multiset of effective method and path pairs and the number of findings of every root unchanged, provided that the child lies on no include cycle. |
| RouteInlining.CyclicInlineRepeats | scripts/check_release_safety.py:2462-2475 | With two routers that include each other, inlining the include of the root turns one effective route into two. |
| RouteInlining.SilentMeansNoCycle | scripts/check_release_safety.py:2462-2475 | After a walk without findings no object reached from the root lies on a cycle. |
| BlobFraming.ReadRecord | scripts/check_release_safety.py:7275-7299 | Succeeds exactly when the output goes on with a header line for this id and size, a payload of that size and a newline, and returns that payload and the position after it. |
| BlobFraming.ParseChunk | scripts/check_release_safety.py:7272-7301 | Parses one batch output to the end, with nothing left over. |
| BlobFraming.FramedIsAccepted | scripts/check_release_safety.py:7272-7301 | A framed output is read back record by record, whatever bytes the payloads hold. |
| BlobFraming.AcceptedIsFramed | scripts/check_release_safety.py:7272-7301 | An accepted output is covered exactly by headers, payloads of the declared sizes and separators, for new distinct ids. |
| BlobFraming.AcceptedIffFramed | scripts/check_release_safety.py:7272-7301 | The parser accepts exactly the framed outputs and returns their payloads. |
| BlobFraming.BatchHeaderIsGood | scripts/check_release_safety.py:7278-7293 | The header git writes for a whitespace-free ASCII id and any size passes the header test and holds no newline. |
| BlobHistory.Chunk | scripts/check_release_safety.py:7223-7248 | Greedy packing, refused exactly when some blob does not fit a chunk. |
| BlobHistory.ChunkingIsFaithful | scripts/check_release_safety.py:7223-7248 | Chunks concatenate back to the input order, none is empty, each is within 32 MiB and none is closed early. |
| BlobHistory.GuardMakesRefusalUnreachable | scripts/check_release_safety.py:7337-7341 | Behind the caller's 5 MiB guard the per-blob refusal cannot happen. |
| BlobHistory.ReadHistoryPayloads | scripts/check_release_safety.py:7220-7302 | The whole read: size checks, chunks, bounded runs, parsing and the final check of the ids. |
| BlobRoundTrip.FaithfulOutputUnderLimit | scripts/check_release_safety.py:7256-7262 | For ids up to 64 bytes and sizes up to 56 digits a faithful output is strictly below the limit, so the runner never rejects it. |
| BlobRoundTrip.FaithfulHistoryReadsBack | scripts/check_release_safety.py:7223-7302 | For distinct whitespace-free ids and arbitrary payloads a faithful git is read back exactly. |
| BlobRoundTrip.ReturnedHistoryIsCovered | scripts/check_release_safety.py:7250-7302 | A returned result has distinct ids, payloads of the declared sizes, and every batch covered exactly. |
| AliasForest.HalvingPreservesRoots | scripts/check_release_safety.py:5532-5537 | Pointing a name at its grandparent moves no root. |
| AliasForest.SameRootIffConnected | scripts/check_release_safety.py:5527-5569 | Two names have one root exactly when a chain of alias assignments connects them. |
| AliasForest.LinkRepresents | scripts/check_release_safety.py:5539-5543 | Linking two roots represents the old aliases plus the new one. |
| AliasEntries.AliasAnalysis.Find | scripts/check_release_safety.py:5532-5537 | Terminates, returns the root, adds only the name asked for and moves no root. |
| AliasEntries.AliasAnalysis.Union | scripts/check_release_safety.py:5539-5543 | Adds exactly one alias link to what the forest represents. |
| AliasEntries.AliasAnalysis.UniteAll | scripts/check_release_safety.py:5545-5569 | After the first pass the forest represents exactly the alias links of all assignments. |
| AliasEntries.AliasAnalysis.Merge | scripts/check_release_safety.py:5574-5592 | Folds entries into the component of a name, later ones winning and conflicts flagged, and leaves other components alone. |
| AliasEntries.AliasAnalysis.Record | scripts/check_release_safety.py:5594-5687 | After each change every name sees exactly what was written through the names connected to it so far. |
| AliasEntries.ResolveAliases | scripts/check_release_safety.py:5522-5696 | Every observed name resolves to exactly what the program writes through names connected to it, in order. |
| AliasEntries.ConnectedCollectSame | scripts/check_release_safety.py:5689-5696 | Connected names get identical entries and dynamic flag. |
| AliasEntries.StaticEntriesAgree | scripts/check_release_safety.py:5581-5592 | With the flag clear, every expression written to a key through any alias is the one reported. |
| BrokerGraph.PushMethods | src/trading_assistant/bootstrap.py:639-654 | Succeeds exactly when every required broker method is present and every present one is a plain callable. |
| BrokerGraph.RequireBoundedGraph | src/trading_assistant/bootstrap.py:616-678 | Terminates; on acceptance the seen set is exactly what the root and its broker methods reach, closed under ownership, at most 512 objects and no broker but the root; every refusal has its stated reason, too deep meaning below a chain of different owners. |
| BrokerGraph.ClosedHoldsChain | src/trading_assistant/bootstrap.py:656-678 | A set closed under ownership that holds the head of a chain holds its end. |
| BrokerGraph.Exact | src/trading_assistant/bootstrap.py:656-678 | A closed set of reachable objects with the root and methods in it is exactly the reachable set. |
| ReleaseEvidence.PytestEvidence | scripts/verify_loopback_release.py:1184-1266 | Accepted if and only if the record is well formed, nothing deselected, ids safe and distinct, the manifest matches, every collected id has exactly one outcome, none failed and skips are allowlisted. |
| JUnitEvidence.ScanCases | scripts/verify_loopback_release.py:1331-1371 | Passes exactly when every case names a test of its own and skips only what may be skipped; returns ids, files and counters. |
| JUnitEvidence.SkipsCounted | scripts/verify_loopback_release.py:1331-1371 | With distinct ids the counters equal the numbers of ids and of skipped ids. |
| JUnitEvidence.TotalsCount | scripts/verify_loopback_release.py:1373-1412 | The counters are zero, or below the number of cases, exactly when no case failed, or some case ran. |
| JUnitEvidence.ReadJUnit | scripts/verify_loopback_release.py:1296-1427 | Accepted if and only if the report is well formed, all counters add up, no test failed, at least one ran and every required file took part. |
| ReleaseVerifier.CheckTests | scripts/verify_loopback_release.py:2319-2360 | No error exactly when both records are good and name the same tests and the same skips. |
| ReleaseVerifier.EveryTestAccounted | scripts/verify_loopback_release.py:1236-1260 | Then every collected test is reported exactly once, as passed or as an allowlisted skip, and JUnit has a case for it without failure or error. |
| ReleaseVerifier.SomeTestPassed | scripts/verify_loopback_release.py:1413-1416 | Then at least one collected test ran and passed. |
| ReleaseVerifier.RunCommand | scripts/verify_loopback_release.py:2143-2425 | No error exactly when the candidate is intact before and after, the command is not a network one, returns 0 and proves its tests; a step marked passed is backed by that. |
| ReleaseVerifier.RunIsolated | scripts/verify_loopback_release.py:2141-2458 | Passed if and only if every command is good in order and the repository is the same commit at the end; all steps but the last are always passed and backed. |
| Autopilot.CycleIsCapped | src/trading_assistant/autopilot.py:261-314 | A cycle that adds no more than the cap left over is capped on its own day and on every later one. |
| Autopilot.NothingAhead | src/trading_assistant/autopilot.py:115-132 | With no approval in the future, later days count zero. |
| Autopilot.Pilot.OrdersToday | src/trading_assistant/autopilot.py:115-132 | Counting since UTC midnight counts exactly the autopilot approvals of the current day. |
| Autopilot.Pilot.Submit | src/trading_assistant/autopilot.py:145-198 | At most one approval more, which is either reported or followed by an exception; a dry run records nothing. |
| Autopilot.Pilot.Consider | src/trading_assistant/autopilot.py:275-306 | Buys only from flat or short toward long, sells only a long toward flat, and aborts only when the strategy or the placement raises. |
| Autopilot.Pilot.RunOnce | src/trading_assistant/autopilot.py:261-314 | However a cycle ends, and across midnight, no UTC day has more autopilot approvals than the cap unless it had them before. |
| Autopilot.Pilot.Loop | src/trading_assistant/autopilot.py:261-314 | The same over any sequence of cycles with human approvals in between. |

## Left out

- The rest of the risk engine and of order submission, reconciliation internals and the rule repository's writes: they appear only through the assumptions listed above.
- Database sessions, encryption of sensitive fields, audit texts and JSON formatting: only durable fields and transaction boundaries are kept.
- Upgrade's link from proposals to groups, creation times and the reconciliation flag of groups: they would only add easy members.
- Notional-sized reservations over runs: their size moves with the price, so only the quantity form is invariant; `AvailableReduceQty` itself covers both forms.
- Executions after an order is terminal, positions changed outside the book, and the other limits of the risk check: the reservation runs exclude them.
- ReleaseEvidence.PytestEvidence: states acceptance exactly, not which code a rejected record gets; sorted tuples of ids are modelled as sets.
- JUnitEvidence.ReadJUnit: states acceptance exactly, not which code a rejected report gets; the spelling of node ids and the path pattern are parameters.
- ReleaseVerifier.RunCommand: process control, file permissions, tool fingerprints and redaction are part of what is observed.
- BrokerGraph.RequireBoundedGraph: how owned children are found, the built-in broker's class checks and the broker key guards are parameters or omitted.
- DecimalScalar.AcceptedIffRounded: the exponent limits of the decimal context are not modelled.
- AliasEntries.ResolveAliases: which syntax nodes count as mutators, and the reading of dictionary literals, are input.
- PlanCancel.TradingService.CancelPlanOrdersAfterExit: ids are taken in any order, ascending order being one of them.
- Autopilot.Pilot.RunOnce: healing of transient breakers, feature loading and the moving-average decision are not modelled; cycles are sequential.
- The rest of the release scanner (syntax patterns, fingerprints, configuration checks), the analyst, the web and MCP layers: flat pattern matching or input and output.
