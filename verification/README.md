# Binance Spot functional lane: a verified model

The functional lane lets one supervised session place at most one BUY and one SELL of BTCUSDT, for at
most 10 USDT, and then proves from broker truth what happened.  It never retries a POST: every action
is a durable claim that moves through a fixed life, an outcome nobody knows stays unknown until broker
truth settles it, and the session is sealed only when the account is back at its baseline.

This project models that lane in Dafny and proves what it is for.

**The order protocol.**  `Ledger.dfy` holds the durable tables as a class whose methods are single
transactions, each equal to a function on table values.  `Exchange.dfy` is the exchange as ghost state
with every assumption about it in one place.  `Protocol.dfy` puts both together as a state machine:
service calls are sequences of ledger moves made with one account truth, a dispatch goes through
SUBMITTING, marker and transport, the exchange accepts, fills, cancels and expires in any order, and a
crash loses everything but the ledger.  `Invariant.dfy`, `LedgerKept.dfy` and `WorldKept.dfy` give an
inductive invariant; `Safety.dfy` and `RecoveryGuarantees.dfy` draw the end-to-end theorems from it:
the baseline is never consumed, at most one BUY of at most 10 USDT, at most one send a claim and never
a false denial, one trade in flight, the exact number of cleanup slots a cancel finds, a sealed session that nothing reopens,
a sound delayed nonacceptance, exact bookkeeping.  `Limits.dfy` and `Witnesses.dfy` show where the guarantees
stop, each with a run from a fresh session.

**The code that drives it.**  `Reconciliation.dfy`, `Service.dfy`, `MutationEdge.dfy`, `Dispatch.dfy`
and `Finalization.dfy` are the imperative service.  Each method returns as a ghost the protocol moves
it made, and its contract says that the tables afterwards are the tables before plus those legal
moves; `CallRuns.dfy` turns a call, or any prefix a crash leaves of it, into a run.  So the theorems
about runs are theorems about these methods.  `ServiceLaws.dfy` says what their tests come to, in the
fields of the session, the call, the truth and the rules, every limit as the number it is;
`RecoveryProgress.dfy` and `RecoveryWitness.dfy` say what recover gets done.  `EdgeRace.dfy` covers what the service lock does not:
any number of dispatchers, edge calls and crashes racing on one claim.

**Around it.**  `OwnerMetrics.dfy` and `SymbolRules.dfy` are the money arithmetic, `PhaseChain.dfy` and
`ExclusivityCursor.dfy` the exclusivity proofs, `HistoryPages.dfy` the pagination checker,
`ApprovalStore.dfy` and `BootstrapStore.dfy` the one-shot authorities, `ManagedScheduler.dfy` the owner
loop, `CurrencyCeiling.dfy` the conversion of a KRW limit, `ClientOrderIds.dfy` the client ids.

## Assumptions about the world

They are stated in `ExchangeModel` and in `OrderProtocol.Fresh`, `Timely` and `StepLegalUntimed`, and nowhere else:

- the account truth of a call is a snapshot of the exchange, no older than the one the previous call
  used, and shows every order whose visibility horizon had passed when it was taken;
- an order appears only for a request the lane sent, terminal orders stay terminal and get no more
  fills, no order executes beyond its requested size, SELL fees are not charged in BTC, and a BUY fee
  charged in BTC is at most the BTC bought;
- a request can be accepted only within 60 s of its durable marker: the transport is entered soon
  after the marker;
- no exchange order carries a cancel's own client id;
- the epoch of a truth is not ahead of the service's clock, where the code tolerates a truth up to 1 s ahead;
- nobody else trades the account: its balances are the opening balances plus the owned fills;
- the owner's recovery write hits only a session that is not sealed (the step `OwnerRecovery`).

What recover gets done (`RecoveryProgress`) is stated for truths that list each order once, as it was asked
for and with what its own fills add up to (`RecoveryProgress.ShowsOrders`); the safety theorems do not need it.

## What the code does that its documentation does not say

- A delayed nonacceptance of a CANCEL claim proves nothing about the exchange: no order or fill ever
  carries its client id, so the lookup and the truth are silent whether or not the cancel was executed
  (`NonacceptanceLimits.ExecutedCancelProvenNotAccepted`; `ProtocolWitnesses.ExecutedCancelIsDenied` is
  such a run).  For BUY and SELL it is sound, but a process paused between marker and transport for
  longer than the second look defeats it (`NonacceptanceLimits.LateSendProvenNotAccepted`;
  `ProtocolWitnesses.LateBuyIsDenied` is such a run).
- The service does not by itself keep the reserved cancel slot.  At its own interface, where
  `authority_reader` may answer anything, `recover` may claim cleanup actions while the ledger session is
  still RUNNING, and a natural SELL may be claimed after them.  The cancel planner reports an exhausted
  budget exactly when the working order's own claim was made with all twelve slots taken, which only a
  natural leg's can be (`RecoveryGuarantees.CancelBudgetExhaustedExactly`); eleven flattens, one cancel
  and a natural SELL get there (`ProtocolWitnesses.CancelBudgetCanBeExhausted`).  The shipped control
  rules that out: CLEANUP never goes back to ACTIVE, `tick` observes bars only without cleanup authority
  and recovers only with it, and a natural send is refused while the kill switch is on
  (live_trader/binance_spot_functional_lifecycle.py:1365-1381, 1705-1728, 2942-2992).  Natural legs are
  then claimed before the first cleanup action, and the budget is never exhausted
  (`RecoveryGuarantees.OneWayControlNeverExhausts`).
- The lifecycle latches REST-only recovery with a session write that has no guard.  Once the
  terminal barrier is crossed, finalization answers every exception with it, also one raised between the
  commit of the seal and its return; written over the seal it leaves evidence without a final state and no transaction that applies any more
  (`ProtocolSafety.LateRecoveryStrands`).
- The edge can raise NOT_SENT for a claim whose transport was entered, when leaving the reservation
  raises an exclusivity error.  It does no harm because the dispatch reads the durable claim, not the
  exception class (`FunctionalMutationEdge.MutationEdge.Invoke`, `ClaimDispatch.ClaimDispatcher.Cross`).
- The first-observation epoch of a nonacceptance proof is overwritten by the second when the first was
  exactly 0.0, because zero stands for absent (`ProtocolInvariant.TwoObservations` states it as it is).
  On a real clock this is out of reach: a truth observed at epoch zero cannot pass the freshness test.
- The wiring flag of the final evidence does not look at the supervised mode, which only the outcome
  does (`SessionFinalization.WiringAgainstOutcome`).  No shipped provider makes the difference visible:
  the supervised one fixes `accountWideCausalClosureProven` to False
  (live_trader/binance_spot_functional_supervised_exclusivity.py:977 and 1075), and the ordinary one has
  no assurance mode.
- In the owner loop, once CLEANUP has been read a later stop or tick fault is no barrier any more: the
  latch is never opened again, so nothing is verified a second time
  (`ManagedScheduler.LatchedFaultIsNoBarrier`; `ManagedScheduler.SecondFaultIsForgotten` is such a loop).
- Claiming an approval with a reseal replaces its permit identity, so the replay check no longer knows
  the original permit; only the approval id stays used (`ApprovalStore.ResealFreesOriginalPermit`).

## Model

| member | source | states |
|---|---|---|
| `ProtocolSafety.BaselineNeverConsumed` | live_trader/binance_spot_continuous_functional.py:2464-2491 | On every run, with partial fills, crashes and ambiguous sends, owned SELLs never sell more BTC than was bought minus BTC fees, and the account's BTC stays at or above its opening balance. |
| `ProtocolSafety.SpendBound` | live_trader/binance_spot_continuous_functional.py:3366-3399 | On every run at most one BUY enters the transport and owned BUYs execute at most 10 USDT. |
| `ProtocolSafety.SentAtMostOnceAndNeverDenied` | live_trader/binance_spot_continuous_functional.py:2280-2300 | Every claim is sent at most once on every run, and from then on it is never CLAIMED, SUBMITTING, NOT_SENT or PROVEN_NOT_ACCEPTED. |
| `ProtocolSafety.OneTradeInFlight` | live_trader/binance_spot_continuous_functional.py:3322-3331 | In every reachable state at most one BUY/SELL claim and one CANCEL claim are not terminal, and at most one order works on the exchange. |
| `ProtocolSafety.CancelSlotReserved` | live_trader/binance_spot_continuous_functional.py:2048-2098 | Never more than 12 cleanup actions, the twelfth never a SELL; a working order without a cancel finds exactly the slots its own claim was made with, so a cleanup SELL always finds one free. |
| `ProtocolSafety.NaturalFirstKeepsSlots` | live_trader/binance_spot_functional_lifecycle.py:2942-2992 | On a run that claims no natural leg after a cleanup action, every natural leg is claimed with all slots free. |
| `ProtocolSafety.CleaningLateIsNaturalFirst` | live_trader/binance_spot_continuous_functional.py:3870-3876 | A run that claims cleanup actions only once the session has left RUNNING is such a run. |
| `ProtocolSafety.FinalStaysFinal` | live_trader/binance_spot_continuous_functional.py:3580-3598 | Once FINAL_PREPARED, FINALIZED or FAILED, no step changes evidence, capability, claims or evaluations, although the dispatch failure path writes CLEANUP without a guard. |
| `ProtocolSafety.LateRecoveryStrands` | live_trader/binance_spot_functional_lifecycle.py:3124-3156 | The owner's recovery write keeps the seal's invariant exactly when nothing is sealed yet; over a seal it leaves a session to which no ledger transaction applies. |
| `ProtocolSafety.FinalDispatch` | live_trader/binance_spot_continuous_functional.py:3499-3501 | A final session has no claim left that any dispatch move applies to. |
| `ProtocolSafety.FinalFreezesAccount` | live_trader/binance_spot_continuous_functional.py:4107-4120 | After a seal not one more owned fill can happen, on any continuation. |
| `ProtocolSafety.NonacceptanceIsSound` | live_trader/binance_spot_continuous_functional.py:2169-2224 | A claim terminalized as nonaccepted holds exactly two spaced observations, the first 60 s after its last durable change and so after its marker, both with the sealed balances, no trace of it and an exact not-found lookup within 15 s, chained in its proof hash; and it never becomes an order. |
| `ProtocolSafety.TerminalClaimStays` | live_trader/binance_spot_continuous_functional.py:3009-3037 | A terminal claim's row never changes again. |
| `ProtocolSafety.BooksAreExact` | live_trader/binance_spot_continuous_functional.py:2008-2152 | Claim flags and counters equal the rows, cleanup generations are 1..n and 1..m, cancel targets are distinct, bar closes increase, and a natural SELL follows the BUY on a later bar. |
| `SystemPreservation.StepKept` | live_trader/binance_spot_continuous_functional.py:3484-3767 | Every step of service, dispatch, exchange, clock and crash keeps the whole invariant. |
| `SystemPreservation.ClaimedSellIsCovered` | live_trader/binance_spot_continuous_functional.py:3944-3992 | A SELL is covered by what the exchange says is owned at the moment it is claimed, because no unfinished order can still change it. |
| `SystemPreservation.UnseenIsGone` | live_trader/binance_spot_continuous_functional.py:3253-3259 | A claim absent from a truth taken after its horizon is no order and can never become one. |
| `LedgerPreservation.MoveKept` | live_trader/binance_spot_continuous_functional.py:1601-2300 | Every ledger transaction a service call makes keeps every ledger invariant. |
| `RecoveryGuarantees.CancelBudgetNeverExhausted` | live_trader/binance_spot_continuous_functional.py:3877-3954 | The budget-exhausted branch of the cancel planner is dead when every natural leg was claimed with a slot left. |
| `RecoveryGuarantees.CancelBudgetExhaustedExactly` | live_trader/binance_spot_continuous_functional.py:3877-3943 | With one working order the planner reports an exhausted budget if and only if no cancel is claimed for it and its own claim was made with all 12 slots taken; then it is a natural leg. |
| `RecoveryGuarantees.NaturalFirstNeverExhausts` | live_trader/binance_spot_continuous_functional.py:3877-3917 | So it is dead on every run that claims no natural leg after a cleanup action. |
| `RecoveryGuarantees.OneWayControlNeverExhausts` | live_trader/binance_spot_functional_lifecycle.py:2942-2992 | The shipped caller is one: it claims natural legs only before its control turns to CLEANUP and cleanup actions only after, RUNNING session or not. |
| `RecoveryGuarantees.CleaningLateNeverExhausts` | live_trader/binance_spot_continuous_functional.py:3870-3917 | It is dead, too, on every run that claims cleanup actions only out of RUNNING. |
| `ProtocolWitnesses.CancelBudgetCanBeExhausted` | live_trader/binance_spot_continuous_functional.py:3912-3917 | At the interface of the service, with an authority reader that lets natural legs follow cleanup actions: from a fresh session, eleven flattens and one cancel claimed while RUNNING and then a natural SELL; on the truth of that state the planner can answer nothing but an exhausted budget. |
| `RecoveryGuarantees.FlattenIsNotRepeated` | live_trader/binance_spot_continuous_functional.py:3944-3993 | After a filled flatten the residue is nothing or dust and no further flatten is planned. |
| `RecoveryGuarantees.BaselineFlatIsTrue` | live_trader/binance_spot_continuous_functional.py:3944-3993 | BASELINE_FLAT means every order is finished on the exchange and nothing is owned. |
| `DurableLedger.DurableFunctionalLedger.ClaimAction` | live_trader/binance_spot_continuous_functional.py:2008-2152 | A claim is inserted exactly when its flag, generation, target, budget and uniqueness allow it; otherwise nothing changes. |
| `DurableLedger.DurableFunctionalLedger.TransitionAction` | live_trader/binance_spot_continuous_functional.py:2244-2278 | Compare-and-set on the state column. |
| `DurableLedger.DurableFunctionalLedger.MarkPostMayHaveCrossed` | live_trader/binance_spot_continuous_functional.py:2280-2300 | The marker is set once, only from SUBMITTING. |
| `DurableLedger.DurableFunctionalLedger.RecordAbsence` | live_trader/binance_spot_continuous_functional.py:2154-2224 | Appends one spaced observation and terminalizes at the second. |
| `DurableLedger.DurableFunctionalLedger.RecordEvaluation` | live_trader/binance_spot_continuous_functional.py:1339-1443 | Appends an evaluation exactly when the session runs and the bar is newer. |
| `DurableLedger.DurableFunctionalLedger.SetSessionState` | live_trader/binance_spot_continuous_functional.py:1601-1652 | Overwrites the session state unconditionally; the gap flag is sticky. |
| `DurableLedger.DurableFunctionalLedger.SealFinal` | live_trader/binance_spot_continuous_functional.py:1654-1839 | Seals evidence and revokes the capability once; repeating the same seal changes nothing. |
| `DurableLedger.DurableFunctionalLedger.CommitPreparedFinal` | live_trader/binance_spot_continuous_functional.py:1841-1873 | Only a prepared, revoked, sealed session becomes FINALIZED. |
| `DurableLedger.DurableFunctionalLedger.AbortBeforeActivation` | live_trader/binance_spot_continuous_functional.py:1921-2005 | Only a RUNNING session without any claim can be failed before activation. |
| `DurableLedger.DurableFunctionalLedger.CountCleanupActions` | live_trader/binance_spot_continuous_functional.py:2048-2098 | Counts cleanup and cancel claims by walking the table. |
| `OwnerMetrics.ComputeOwnerMetrics` | live_trader/binance_spot_continuous_functional.py:2392-2494 | Accepts exactly well-formed, distinct, attributable fills and returns their tally, whose every field the lemmas below describe in the fills and the account. |
| `OwnerMetrics.MarkToMarketIdentity` | live_trader/binance_spot_continuous_functional.py:2464-2494 | ownerPnl equals the change in USDT plus the change in BTC at the mark exactly when every USDT commission was valued at what was paid. |
| `OwnerMetrics.LossIsWhatWasLost` | live_trader/binance_spot_continuous_functional.py:2494 | ownerLoss is zero exactly when the account did not lose at the mark, and otherwise exactly what it lost, USDT fees at their stated value. |
| `OwnerMetrics.OwnedIsTheChange` | live_trader/binance_spot_continuous_functional.py:2464-2491 | The owned quantity is the change of the account's BTC. |
| `OwnerMetrics.FeesAreExact` | live_trader/binance_spot_continuous_functional.py:2448-2463 | Fees are exact exactly when the valuation is complete and every owned fill states its fee exactly. |
| `OwnerMetrics.BuyQuoteIsPaid` | live_trader/binance_spot_continuous_functional.py:2440-2447 | buyQuote is the sum of what the owned BUY fills cost. |
| `OwnerMetrics.AcceptableExactly` | live_trader/binance_spot_continuous_functional.py:2402-2439 | Refused are exactly lists with an owned fill without quantity or price, with a negative fee, or with a trade id used twice. |
| `OwnerMetrics.TallyPermutation` | live_trader/binance_spot_continuous_functional.py:2402-2463 | The tally does not depend on the order of the fills. |
| `OwnerMetrics.TallyIgnoresForeign` | live_trader/binance_spot_continuous_functional.py:2402-2463 | Fills of others do not change the tally. |
| `SymbolFilters.FloorIsLargestMultiple` | live_trader/binance_spot_continuous_functional.py:789-793 | floor_quantity is the largest whole number of steps not above a quantity. |
| `SymbolFilters.DustOrFlattenable` | live_trader/binance_spot_continuous_functional.py:820-867 | A positive residue is dust or flattenable, never both, and neither exactly when it exceeds the max filters. |
| `SymbolFilters.FlattenProgress` | live_trader/binance_spot_continuous_functional.py:820-867 | A flatten sells at most what is owned and leaves less than one step, which is dust. |
| `SymbolFilters.NormalizedExactly` | live_trader/binance_spot_continuous_functional.py:820-846 | A flatten is normalised to q exactly when q is the whole steps of the quantity and passes min and max quantity and notional. |
| `SymbolFilters.DustExactly` | live_trader/binance_spot_continuous_functional.py:848-867 | A residual is unorderable exactly when its whole steps are below minimum quantity or notional; it raises exactly for a negative quantity or no price. |
| `ClientOrderIds.KindRoundTrip` | live_trader/binance_spot_continuous_functional.py:2311-2338 | Decoding a derived client id gives back the kind and generation it was derived for. |
| `ClientOrderIds.ClientIdsAreDistinct` | live_trader/binance_spot_continuous_functional.py:2307-2322 | Two client ids are equal exactly when session digest and kind are. |
| `ClientOrderIds.OwnedByOneSession` | live_trader/binance_spot_continuous_functional.py:2341-2347 | An order starts with a session's owned prefix exactly when it is that session's. |
| `ClientOrderIds.IdFormat` | live_trader/binance_spot_continuous_functional.py:2307-2322 | The ids as the exchange sees them: "ftb-", the digest, and the suffix. |
| `Reconciliation.ReconcileActions` | live_trader/binance_spot_continuous_functional.py:2986-3166 | Settles every claim before the first contradictory one exactly as its verdict says (`Reconciliation.VerdictsMean`), leaves the rest, and makes only legal moves. |
| `Reconciliation.ReconciledMeansAccounted` | live_trader/binance_spot_continuous_functional.py:3085-3166 | A BUY or SELL is RECONCILED exactly when the truth lists its order once, in the sealed shape, finished, with its own fills adding up. |
| `Reconciliation.SettlingIsLegal` | live_trader/binance_spot_continuous_functional.py:3009-3166 | A settling verdict is always a legal protocol move. |
| `Reconciliation.VerdictsMean` | live_trader/binance_spot_continuous_functional.py:2986-3166 | Every verdict in the rows and fills of the truth: a claim is left alone exactly when it is finished, not yet sent, or its one order, as sealed, still works (and not every claim must be terminal); RECONCILED exactly when that order is finished and accounted for; PROVEN_NOT_ACCEPTED exactly when it was never sent and left no trace; everything else stops. |
| `RecoveryProgress.StopsOnlyAtUnlisted` | live_trader/binance_spot_continuous_functional.py:3085-3110 | On every reachable state and a truth that shows each order as it is, reconciliation for recover stops at a claim if and only if it is a sent trade whose order is not listed. |
| `RecoveryProgress.PlansTheWorkingOrder` | live_trader/binance_spot_continuous_functional.py:3877-3943 | With one owned working order the planner answers CANCEL_ALREADY_CLAIMED exactly when a cancel names it, else BUDGET_EXHAUSTED exactly from twelve cleanup actions on, else a claimed cancel of that order. |
| `RecoveryProgress.PlansTheResidue` | live_trader/binance_spot_continuous_functional.py:3944-3993 | With none it answers BASELINE_FLAT, SLOT_PRESERVED (from eleven actions on), DUST or a claimed flatten, each exactly under its condition on what is owned. |
| `RecoveryProgress.RecoverCancelsTheWorkingOrder` | live_trader/binance_spot_continuous_functional.py:3769-3943 | On every reachable state with one working order, no cancel claimed for it, a slot left and a truth no older than the claims, whatever RecoverSession answers is a claimed cancel of exactly that order. |
| `RecoveryWitness.WorkingBuyIsCanceled` | live_trader/binance_spot_continuous_functional.py:3877-3943 | A fresh session reaches such a state: its BUY acknowledged and working. |
| `ContinuousFunctionalService.FunctionalService.Context` | live_trader/binance_spot_continuous_functional.py:2903-2984 | Passes exactly when capability, permit, freshness, stream and caps hold (`ServiceAnswers.ContextMeans`), or for a tolerated mixed owner; latches a stream gap. |
| `ContinuousFunctionalService.FunctionalService.ObserveBar` | live_trader/binance_spot_continuous_functional.py:3302-3443 | Which reply every bar gets: raised, expired, held, no reentry, sell cap or the leg claimed (`ServiceAnswers.BarMeans`), sized as the rules say; and its evaluation is recorded exactly when the bar gets that far. |
| `ContinuousFunctionalService.FunctionalService.ProveAmbiguousNotAccepted` | live_trader/binance_spot_continuous_functional.py:3168-3300 | Records one observation exactly when claim, waiting times, lookup, truth and balances all prove absence (`ServiceAnswers.AbsenceMeans`), chained with the balances, orders, fills and lookup it was made with; the second terminalizes. |
| `ContinuousFunctionalService.FunctionalService.AbsenceObjection` | live_trader/binance_spot_continuous_functional.py:3193-3265 | No objection is raised exactly when absence is justified. |
| `ContinuousFunctionalService.FunctionalService.RecoverSession` | live_trader/binance_spot_continuous_functional.py:3769-3993 | The answer on every ledger, truth and clock: raised, external activity, unsafe pending, overdue or what the planner does, each exactly under its condition, with what it means for the tables; the tables it planned on are reached by a prefix of its moves. |
| `ContinuousFunctionalService.FunctionalService.PlanCancel` | live_trader/binance_spot_continuous_functional.py:3877-3943 | Cancels the one working order once, if a slot is left. |
| `ContinuousFunctionalService.FunctionalService.PlanFlatten` | live_trader/binance_spot_continuous_functional.py:3944-3993 | Sells exactly the normalised owned quantity, or reports dust or the preserved slot; refuses exactly when the rules do. |
| `ContinuousFunctionalService.OneOpenOneUnresolved` | live_trader/binance_spot_continuous_functional.py:3829-3843 | With no unexplained pending claim, the one working order explains the only unresolved claim. |
| `ServiceAnswers.ContextMeans` | live_trader/binance_spot_continuous_functional.py:2903-2984 | A context goes through exactly when capability, permit and stream are the sealed ones, the truth is at most 1 s ahead and 15 s behind, a recovered truth is used for cleanup only, the account moved by the owned fills alone, at most 10 USDT were paid, and, outside cleanup, every owned fee is exact and the account lost less than 1 USDT at the mark. |
| `ServiceAnswers.RecoveryContextMeans` | live_trader/binance_spot_continuous_functional.py:3769-3800 | What recover is admitted with: the same for cleanup, or a truth that saw somebody else trade. |
| `ServiceAnswers.OrdinaryLostLessThanOne` | live_trader/binance_spot_continuous_functional.py:2976-2984 | An ordinary call that goes on has lost less than 1 USDT at the mark, whatever the account opened with. |
| `ServiceAnswers.CleanupForcedMeans` | live_trader/binance_spot_continuous_functional.py:3848-3876 | Recover forces cleanup exactly past expiry, out of RUNNING, or from a loss of 1 USDT on. |
| `ServiceAnswers.RowAfterwards` | live_trader/binance_spot_continuous_functional.py:3009-3166 | What becomes of a claim in a call: RECONCILED, PROVEN_NOT_ACCEPTED or nothing, by its order and fills alone. |
| `ServiceAnswers.SettlesAllMeans` | live_trader/binance_spot_continuous_functional.py:3322-3331 | A bar finds every claim settled exactly when each is RECONCILED or its order is finished and accounted for. |
| `ServiceAnswers.BarMeans` | live_trader/binance_spot_continuous_functional.py:3302-3443 | Every answer to a bar, the replies that claim nothing included, exactly in the session, the account, the filters and the signal; all other bars raise. |
| `ServiceAnswers.BarInRows` | live_trader/binance_spot_continuous_functional.py:3352-3443 | A BUY is claimed only into a ledger without BUY and SELL, a SELL only after a BUY; no reentry and the SELL cap mean the rows are there. |
| `ServiceAnswers.AbsenceMeans` | live_trader/binance_spot_continuous_functional.py:3193-3265 | An observation of absence is recorded exactly for an ambiguous claim, 60 s after its last change or 5 s after the last look, with no order or fill of it anywhere, the sealed balances, and the code -2013 answer to its own id within 15 s. |
| `ServiceAnswers.PlanRefusedMeans` | live_trader/binance_spot_continuous_functional.py:3877-3993 | The planner raises exactly at two owned working orders, or with none at a residue it may not classify or that exceeds the max filters while ten or fewer slots are used. |
| `ServiceAnswers.PendingMeans` | live_trader/binance_spot_continuous_functional.py:3829-3843 | UNSAFE_PENDING exactly when some claim is not terminal and no working order carries its id. |
| `ServiceRuns.CallIsRun` | live_trader/binance_spot_continuous_functional.py:3302-3443 | Every service call is a run of the protocol, ending in the tables it left. |
| `ServiceRuns.CrashedCallIsMoves` | live_trader/binance_spot_continuous_functional.py:3302-3443 | Any prefix a crash leaves of a call consists of legal moves. |
| `ServiceRuns.FreshSurvivesBroker` | live_trader/binance_spot_continuous_functional.py:2903-2984 | What the exchange does during a call does not make the call's truth unusable. |
| `FunctionalMutationEdge.MutationEdge.DispatchUnderLease` | live_trader/binance_spot_functional_mutation.py:601-761 | Marker and transport happen exactly when every check before them passes; a receipt only after a real order body. |
| `FunctionalMutationEdge.MutationEdge.Invoke` | live_trader/binance_spot_functional_mutation.py:465-599 | When the marker is set, NOT_SENT is raised exactly when leaving the contexts replaced the outcome or the claim could not be read back. |
| `ClaimDispatch.ClaimDispatcher.DispatchClaim` | live_trader/binance_spot_continuous_functional.py:3484-3767 | The transport is entered exactly when every check and every answer allows it; NOT_SENT is reported exactly when the marker was never set, ACKNOWLEDGED exactly for a clean and exact receipt, anything else is ambiguous; the claim records what is reported; and the whole call is a run. |
| `ClaimDispatch.ClaimDispatcher.Cross` | live_trader/binance_spot_continuous_functional.py:3599-3767 | From SUBMITTING on, the outcome follows the durable claim and not the exception class. |
| `ClaimDispatch.StillExactIsChecked` | live_trader/binance_spot_continuous_functional.py:3515-3572 | The re-check before SUBMITTING implies what the protocol demands of a dispatch. |
| `ServiceAnswers.DispatchableMeans` | live_trader/binance_spot_continuous_functional.py:3499-3572 | A claim crosses into SUBMITTING exactly with authority, its context, and a BUY still before expiry and within the filters, a SELL of exactly the whole steps owned and available, or a cancel whose target is listed open once under its broker id. |
| `EdgeRace.AtMostOneSend` | live_trader/binance_spot_functional_mutation.py:616-761 | However many threads race, die and raise, one claim enters the transport at most once and a sent claim is never denied. |
| `EdgeRace.NotSentIsTrueForever` | live_trader/binance_spot_continuous_functional.py:3699-3716 | Once NOT_SENT is durable nobody has sent the claim and nobody ever will. |
| `EdgeRace.SmoothRaceSends` | live_trader/binance_spot_functional_mutation.py:616-761 | A race whose dispatcher succeeds in every step sends once and is acknowledged. |
| `EdgeRace.RivalLeavesItUnknown` | live_trader/binance_spot_continuous_functional.py:3699-3767 | A rival edge call that loses the marker leaves the claim RECONCILIATION_REQUIRED although the receipt came. |
| `NonacceptanceLimits.CancelAlwaysUnseen` | live_trader/binance_spot_continuous_functional.py:3253-3259 | Every truth of every exchange state leaves every CANCEL claim unseen. |
| `NonacceptanceLimits.ExecutedCancelProvenNotAccepted` | live_trader/binance_spot_continuous_functional.py:3168-3300 | From every state with a cancel on its way there is a run that executes it and proves it not accepted. |
| `ProtocolWitnesses.ExecutedCancelIsDenied` | live_trader/binance_spot_continuous_functional.py:3168-3300 | A fresh session has such a run: BUY claimed, sent and working, its cancel sent with its outcome lost, executed, and proven not accepted, with every timing assumption kept. |
| `NonacceptanceLimits.LateSendProvenNotAccepted` | live_trader/binance_spot_functional_mutation.py:722-744 | Without the timing assumption, a pause after the marker leads to a nonaccepted claim that becomes an order. |
| `ProtocolWitnesses.LateBuyIsDenied` | live_trader/binance_spot_functional_mutation.py:722-744 | A fresh session has such a run: BUY claimed, opened and marked, sent after a pause, proven not accepted, and then an order. |
| `ExclusivityPhaseChain.PhaseChainComplete` | live_trader/binance_spot_continuous_functional.py:2653-2773 | The chain is complete exactly when records and required boundaries are in bijection and every record verifies. |
| `ExclusivityPhaseChain.EveryLegSealedOnce` | live_trader/binance_spot_continuous_functional.py:2692-2705 | A complete chain holds one record per natural leg, sealing exactly the claimed action, and the terminal proof itself. |
| `ExclusivityPhaseChain.NoOtherRecord` | live_trader/binance_spot_continuous_functional.py:2692-2773 | A complete chain holds no record but the three phase boundaries and the claimed natural legs. |
| `ExclusivityPhaseChain.CompleteExactly` | live_trader/binance_spot_continuous_functional.py:2653-2773 | A chain is complete if and only if every record has its hash and identity, seals what its boundary asks for, and baseline, activation, the terminal proof and each claimed natural leg are recorded exactly once, nothing else. |
| `SessionFinalization.SessionFinalizer.Finalize` | live_trader/binance_spot_continuous_functional.py:3995-4623 | Seals exactly when account and claims are proven, every filled leg has exact fills, the exclusivity proof and the authority reset are there and a filled round trip has its fees valued; what is sealed is sound, has the outcome its findings earn (`SessionFinalization.SealedOutcomeExactly`), and leaves no capability. |
| `SessionFinalization.SessionFinalizer.ProveTerminal` | live_trader/binance_spot_continuous_functional.py:4007-4120 | Account and claims are proven exactly when context, residual and every reconciliation hold; then every claim is terminal. |
| `SessionFinalization.CollectFilled` | live_trader/binance_spot_continuous_functional.py:4121-4171 | Returns exactly the reconciled legs closed as FILLED, and refuses exactly when one lacks exact positive fills. |
| `SessionFinalization.AcceptableResidual` | live_trader/binance_spot_continuous_functional.py:4077-4106 | An accepted residual is nothing or unorderable dust above an untouched baseline, exactly so unless this truth was recovered. |
| `SessionFinalization.PassIsEarned` | live_trader/binance_spot_continuous_functional.py:4207-4251 | PASS_FULL_ROUND_TRIP is chosen exactly when both legs filled, fees are exact, the loss is below 1, no gap, two hours, a complete chain, unsupervised, with causal closure. |
| `SessionFinalization.PassMeans` | live_trader/binance_spot_continuous_functional.py:4207-4251 | A sealed PASS implies both legs with exact fills and sealed pre-POST records, records and required boundaries in bijection up to the terminal proof, an exact baseline, the loss cap and the full runtime. |
| `SessionFinalization.OutcomeExactly` | live_trader/binance_spot_continuous_functional.py:4207-4251 | The exact condition of every outcome a session can be sealed with, in what was found. |
| `SessionFinalization.SealedOutcomeExactly` | live_trader/binance_spot_continuous_functional.py:4207-4251 | The same on the sealed ledger, its truth and the environment: recovered session, loss, BUY in the rows or not, filled legs, full runtime, phase chain, mode and causal closure decide the outcome exactly. |
| `SessionFinalization.SealedOutcomeMeans` | live_trader/binance_spot_continuous_functional.py:4207-4251 | On the sealed ledger: NO_SIGNAL means no BUY is in the rows, NO_ENTRY that one is and no round trip filled, NATURAL_SELL_ABSENT a filled BUY and a filled cleanup SELL without a filled natural pair, the loss limit a loss of 1 USDT, RECOVERED_STREAM_GAP exactly a recovered session, and every outcome of a round trip both legs filled. |
| `SessionFinalization.TwoHoursExactly` | live_trader/binance_spot_continuous_functional.py:4026-4070 | The full runtime: 7200 s on the clock, the truth and the monotonic clock, which agree within 15 s. |
| `SessionFinalization.ResidualAccepted` | live_trader/binance_spot_continuous_functional.py:4077-4106 | Exactly what may be left: nothing above the baseline, nothing owned after a recovery, or a covered residue the rules prove unorderable. |
| `SessionFinalization.LastClosedIsLast` | live_trader/binance_spot_continuous_functional.py:4121-4125 | A leg is judged by the last closed row that carries its id. |
| `SessionFinalization.WiringUnderPass` | live_trader/binance_spot_continuous_functional.py:4285-4308 | Under PASS with its residual, the wiring flag adds exactly one BUY and one SELL, the 10 USDT caps, an empty book and the environment's proofs. |
| `SessionFinalization.WiringAgainstOutcome` | live_trader/binance_spot_continuous_functional.py:4285-4308 | A raised wiring flag means PASS, or the supervised outcome of a session that also has causal closure, which no shipped provider gives. |
| `SessionFinalization.SealedResidualIsFinal` | live_trader/binance_spot_continuous_functional.py:4601-4623 | The sealed residual is what the account owns on every continuation after the seal. |
| `ExclusivityCursor.ExclusivityProvider.ConsumeCursor` | live_trader/binance_spot_functional_exclusivity_provider.py:1044-1184 | An admitted proof is appended and overwrites the cursor, the head again changes nothing, other sessions never change, and cursors keep agreeing with logs. |
| `ExclusivityCursor.ExclusivityProvider.ValidateEvents` | live_trader/binance_spot_functional_exclusivity_provider.py:982-1042 | Returns the head exactly of an unbroken chain. |
| `ExclusivityCursor.ExclusivityProvider.RestartVerifiable` | live_trader/binance_spot_functional_exclusivity_provider.py:1252-1286 | True exactly when every cursor heads a whole chain and no chain is without a cursor. |
| `ExclusivityCursor.ExclusivityProvider.ValidIsRestartVerifiable` | live_trader/binance_spot_functional_exclusivity_provider.py:1252-1286 | Every store that only consumed proofs passes restart verification. |
| `ExclusivityCursor.ExclusivityProvider.ConsumedPayloadVerified` | live_trader/binance_spot_functional_exclusivity_provider.py:1288-1351 | On such a store, true exactly for the payloads whose proof is in the log, under the current identities. |
| `ExclusivityCursor.AdmissionWhenAgreeing` | live_trader/binance_spot_functional_exclusivity_provider.py:1066-1112 | A proof is admitted exactly when it is the head again or the next one with an unused request. |
| `ExclusivityCursor.AppendAgrees` | live_trader/binance_spot_functional_exclusivity_provider.py:1113-1179 | Appending the next proof keeps sequence, revision, proof, phase and terminal flag derived from the log. |
| `ExclusivityCursor.AdmittedExactly` | live_trader/binance_spot_functional_exclusivity_provider.py:1066-1112 | On an agreeing session a proof is consumed as new exactly when some event sealing it keeps the log a chain of recorded proofs: no continuation is refused and nothing else is let in. |
| `ExclusivityCursor.GenesisExactly` | live_trader/binance_spot_functional_exclusivity_provider.py:1051-1065 | Without a cursor, exactly when it starts a chain and no event left there has its place or its request. |
| `ExclusivityCursor.NextWordIsConsumable` | live_trader/binance_spot_functional_exclusivity_provider.py:971-1112 | Every phase the language allows next can be consumed, and no other. |
| `ExclusivityCursor.ChainSpeaksPhaseLanguage` | live_trader/binance_spot_functional_exclusivity_provider.py:971-980 | The phases of every chain are BASELINE (ACTIVATION (PRE_POST* TERMINAL?)?)?. |
| `ExclusivityCursor.PhaseLanguageHasChain` | live_trader/binance_spot_functional_exclusivity_provider.py:971-980 | Every word of that language is the phases of some chain. |
| `ExclusivityCursor.HeadSealsLog` | live_trader/binance_spot_functional_exclusivity_provider.py:982-1042 | Two chains with the same head event hash are the same log. |
| `HistoryPages.CollectPages` | live_trader/binance_spot_functional_bootstrap.py:339-456 | Accepts a page list exactly when every page is acceptable in turn, and returns what they hold of the window. |
| `HistoryPages.ScanRows` | live_trader/binance_spot_functional_bootstrap.py:395-428 | Accepts a page's rows exactly when ids and times are in order, inside the window's start, and new. |
| `HistoryPages.AcceptedIsExactWindow` | live_trader/binance_spot_functional_bootstrap.py:339-456 | If every page is a true answer over a growing history, an accepted listing is exactly the records of the window. |
| `HistoryPages.TrueListingIsAccepted` | live_trader/binance_spot_functional_bootstrap.py:339-456 | The other direction: whoever lists as the exchange prescribes and records true answers is accepted, equal times, pages ending exactly at the window and a growing history included. |
| `HistoryPages.WindowIsClean` | live_trader/binance_spot_functional_bootstrap.py:339-456 | That window is in order, without duplicates, and complete. |
| `ApprovalStore.OneShotAlways` | live_trader/binance_spot_functional_approval.py:399-454 | On every run at most one approval is open, tokens are stored exactly while CLAIMED, and an unbound row has no session. |
| `ApprovalStore.NeverBackwards` | live_trader/binance_spot_functional_approval.py:672-865 | An approval only ever moves forward, and never stands still while it changes. |
| `ApprovalStore.ClosedStaysClosed` | live_trader/binance_spot_functional_approval.py:866-917 | CONSUMED and FAILED are final, whatever is tried later. |
| `ApprovalStore.AuditNeverRaises` | live_trader/binance_spot_functional_approval.py:1050-1130 | The orphan audit is never stopped by its own compare-and-set. |
| `ApprovalStore.AtMostOneFailed` | live_trader/binance_spot_functional_approval.py:1131-1138 | An audit never fails two approvals. |
| `ApprovalStore.AuditFailsOrphans` | live_trader/binance_spot_functional_approval.py:1065-1133 | A successful audit turns a row FAILED if and only if it was APPROVED or CLAIMED, absence is attested or its age is at least the lease, and no live authority carries both its permit and its hash; every other row is unchanged. |
| `ApprovalStore.AuditListsMean` | live_trader/binance_spot_functional_approval.py:1091-1138 | Each of the three lists holds the permits of exactly the rows it is for. |
| `ApprovalStore.MovesAreRightful` | live_trader/binance_spot_functional_approval.py:318-1021 | Whatever transaction changed a row held the right to: its permit, token, session, seal or attestation. |
| `ApprovalStore.RightfulMovesSucceed` | live_trader/binance_spot_functional_approval.py:318-1021 | And every transaction with that right changes it. |
| `ApprovalStore.ResealFreesOriginalPermit` | live_trader/binance_spot_functional_approval.py:762-806 | After a resealed claim the original permit passes the replay check; only the approval id stays used. |
| `ApprovalStore.ApprovedPermitStore.IssueCandidate` | live_trader/binance_spot_functional_approval.py:318-454 | Inserts exactly when nothing is open and no identity is reused. |
| `ApprovalStore.ApprovedPermitStore.ClaimApproved` | live_trader/binance_spot_functional_approval.py:724-814 | Claims exactly an approved permit, under its resealed identity if that is unused. |
| `ApprovalStore.ApprovedPermitStore.BindSession` | live_trader/binance_spot_functional_approval.py:816-843 | Binds exactly the claimed row whose token is presented. |
| `ApprovalStore.ApprovedPermitStore.AuditOrphanedClaims` | live_trader/binance_spot_functional_approval.py:1023-1138 | Fails exactly the orphans (`ApprovalStore.AuditFailsOrphans`) and lists failed, matched and pending rows (`ApprovalStore.AuditListsMean`). |
| `ApprovalStore.ApprovedPermitStore.ConsumeSession` | live_trader/binance_spot_functional_approval.py:1155-1179 | Consumes the active approval of a session, idempotently. |
| `BootstrapStore.OneBootstrapEver` | live_trader/binance_spot_functional_bootstrap.py:85-89 | At most one bootstrap is ever issued on a database; its secrets and times stay in order; a consumed one lived at least 7200 s. |
| `BootstrapStore.AppliedKeeps` | live_trader/binance_spot_functional_bootstrap.py:1376-1602 | Every transaction keeps issued <= claimed <= activated <= bound < expires and moves the record forward only. |
| `BootstrapStore.BrokenLineageBurns` | live_trader/binance_spot_functional_bootstrap.py:1496-1549 | A bind with a broken time lineage raises exactly then, and burns the record. |
| `BootstrapStore.MovesAreRightful` | live_trader/binance_spot_functional_bootstrap.py:1376-1602 | The record moves to a state exactly when the capability, token, lineage or evidence that state asks for is presented in time. |
| `BootstrapStore.MovesLeaveBehind` | live_trader/binance_spot_functional_bootstrap.py:1376-1602 | What each move leaves in the record; later sessions become eligible exactly when the wiring passed. |
| `BootstrapStore.FirstLiveBootstrapStore.BindBootstrap` | live_trader/binance_spot_functional_bootstrap.py:1424-1582 | A bind that returns leaves the record ACTIVE, bound to the session, with its token gone; one that raises leaves it as it was, or burned when its time lineage is broken or it has expired. |
| `BootstrapStore.FirstLiveBootstrapStore.ConsumeTerminal` | live_trader/binance_spot_functional_bootstrap.py:2615-2802 | Consumes exactly the active record whose activation window is the evidence's and has passed. |
| `ManagedScheduler.Run` | live_trader/binance_spot_functional_scheduler.py:132-489 | The loop's trace, ending and iteration count are the fold of its iterations over everything the manager answers. |
| `ManagedScheduler.RunIsDisciplined` | live_trader/binance_spot_functional_scheduler.py:252-489 | Whatever the manager answers, the trace of the loop is disciplined. |
| `ManagedScheduler.LoopEndsByDeadline` | live_trader/binance_spot_functional_scheduler.py:252-266 | With a clock advancing a fixed minimum an iteration, the loop has ended by the first iteration past the cleanup deadline whose status is not FINAL_RESET. |
| `ManagedScheduler.FinalizedWasReported` | live_trader/binance_spot_functional_scheduler.py:225-251 | A FINALIZED ending was reported by the manager in the last iteration. |
| `ManagedScheduler.StopBarrier` | live_trader/binance_spot_functional_scheduler.py:267-332 | Between a stop or fault and the next action lies a read of durable CLEANUP, unless it had been read before; no heartbeat follows at all. |
| `ManagedScheduler.HeartbeatsOnlyWhileActive` | live_trader/binance_spot_functional_scheduler.py:333-375 | Heartbeats happen in ACTIVE before expiry only, and never after CLEANUP was read. |
| `ManagedScheduler.BeatsAndTicksWhenDue` | live_trader/binance_spot_functional_scheduler.py:326-440 | What an iteration does is decided by trace and round alone: a heartbeat exactly an interval after the last, in ACTIVE before expiry with nothing pending; a tick exactly an interval after the last, past expiry, or when CLEANUP was just read, unless a proof raises; the timers keep saying what the trace says. |
| `ManagedScheduler.RunIsSpaced` | live_trader/binance_spot_functional_scheduler.py:338-375 | In every run each heartbeat comes a whole interval after the one before it. |
| `ManagedScheduler.RunKeepsPace` | live_trader/binance_spot_functional_scheduler.py:252-440 | Between any two iterations of a run the hypotheses of `BeatsAndTicksWhenDue` hold. |
| `ManagedScheduler.LatchedFaultIsNoBarrier` | live_trader/binance_spot_functional_scheduler.py:270-332 | Once latched, a stop or fault is no barrier: an action follows exactly when a poll is due, with no CLEANUP read. |
| `ManagedScheduler.SecondFaultIsForgotten` | live_trader/binance_spot_functional_scheduler.py:270-332 | Three concrete iterations: the first fault is answered by a CLEANUP read before the next tick, the second is followed by a tick at once. |
| `ManagedScheduler.PassBarrier` | live_trader/binance_spot_functional_scheduler.py:55-130 | Passing the barrier latches the loop, stops the heartbeat and reads CLEANUP, exactly when it is up, not latched and the exact owner epoch is verified; a failed verification gives the iteration up. |
| `ManagedScheduler.BarrierExactly` | live_trader/binance_spot_functional_scheduler.py:55-130 | Passing takes CLEANUP of exactly this handle at a positive revision, confirmed by the owner verifier, and newer than the status when it was only just begun. |
| `CurrencyCeiling.NativeAbsoluteLimits` | live_trader/account_currency_limits.py:280-322 | The ceiling is the largest float not above the truncated quotient; at the rate plus its buffer in basis points of ten thousand it never exceeds the limit, exact is the limit over that price cut off after 18 decimals, and any failure leaves zero. |
| `CurrencyCeiling.OneStepSuffices` | live_trader/account_currency_limits.py:300-313 | Nearest-float conversion followed by at most one step toward zero never exceeds the value. |

## Left out

- ProtocolSafety.NonacceptanceIsSound: for BUY and SELL, under the stated timing of the transport; `NonacceptanceLimits` shows what happens outside it.
- ManagedScheduler.Run: takes the iterations as a finite list of any length; the stop event stays set once set; a status read that raises ends the loop and is not modelled.
- SessionFinalization.SessionFinalizer.Finalize: evidence keeps the claims about money and execution; the other fields copied into the document are not modelled.
- DurableLedger.DurableFunctionalLedger.RecordEvaluation: the window, hash and binding checks of the signal are not modelled; what is stored is bar close and signal.
- DurableLedger.DurableFunctionalLedger.SealFinal: the terminal truth row and its hash checks are not modelled; the seal is the evidence alone.
- DurableLedger.DurableFunctionalLedger.AbortBeforeActivation: the attestation of the failed start is not modelled.
- BootstrapStore.FirstLiveBootstrapStore.ConsumeTerminal: the evidence checks and the re-verification of raw execution are one boolean each.
- Several sessions in one ledger file: one session is modelled, so the single-active-route index does not appear.
- The action table is read in insertion order where the source orders by creation epoch.
- One clock reading serves a whole call; the source reads the clock several times.
- Submitters that are not marker-aware: the production edge is, and only it is modelled.
- Permit, binding, publication, authority, credential and stream checks are booleans of the call; so are the gates, signatures and attestations of the two authority stores.
- SQLite, schema fingerprints, file identity and locks: every transaction is one atomic step.
- SHA-256, HMAC and Ed25519: a hash is the value it seals, a signature a number.
- Field-by-field parsing of permits, truths and publication documents: typed records are taken instead.
- Decimal contexts: quantities and epochs are exact reals. For the currency ceiling this is what the 2048-digit context gives on inputs of at most 256 digits.
- The printed form of the currency ceiling: it is read back as the float it was printed from.
- `_validate_action` and building the signed request: one boolean of the edge.
- The third-asset fee list, the detail texts and the event table of the ledger.
- Ledger `set_session(finalize=True)` and approval `approve`: they bypass the guards, and no modelled service call uses them.
- Session creation: a run starts from a freshly created session row.
- The strategy evaluator, lifecycle manager, transport and stream journal: environment steps only.
