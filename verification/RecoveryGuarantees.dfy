/** What the outcomes of recover mean on a whole run. */
module RecoveryGuarantees {
  import opened FunctionalVocabulary
  import opened OwnerMetrics
  import opened SymbolFilters
  import opened DurableLedger
  import opened ExchangeModel
  import opened OrderProtocol
  import opened ProtocolInvariant
  import opened ProtocolSafety
  import opened SystemPreservation
  import opened ContinuousFunctionalService

  /**
    With one owned working order the cancel planner reports an exhausted budget if and only if no
    cancel is claimed for it and its own claim was made when all slots were already taken -- which
    only a natural leg's can be.  Whoever claims a natural leg can check that beforehand.
  */
  lemma CancelBudgetExhaustedExactly(
    start: System, steps: seq<Step>, truth: AccountTruth, seen: Exchange, k: Kind, outcome: Recovery, M: Ledger, rules: SymbolRules)
    requires Initial(start) && Run(start, steps) && Fresh(RunEnd(start, steps), truth, seen)
    requires |OwnedOpen(truth.open)| == 1 && OwnedOpen(truth.open)[0].client == Owned(k)
    requires PlanOutcome(outcome, RunEnd(start, steps).ledger, M, truth, rules)
    ensures var L := RunEnd(start, steps).ledger;
            outcome.BudgetExhausted? <==>
              !TargetCanceled(L.rows, Some(k)) && k in L.order && SlotsAtClaim(L.order, k) == MAX_CLEANUP_ACTIONS
    ensures outcome.BudgetExhausted? ==> k.Natural()
  {
    var L := RunEnd(start, steps).ledger;
    OnlyListed(truth, k);
    if !TargetCanceled(L.rows, Some(k)) {
      CancelSlotReserved(start, steps, truth, seen, k);
      WorkingIsUnfinished(start, steps, truth, seen, k);
    }
    PlannerOnOneOrder(outcome, L, M, truth, rules, k);
  }

  /** What the planner says of the one working order. */
  lemma PlannerOnOneOrder(outcome: Recovery, L: Ledger, M: Ledger, truth: AccountTruth, rules: SymbolRules, k: Kind)
    requires PlanOutcome(outcome, L, M, truth, rules)
    requires (forall m :: ListedOpen(truth, m) <==> m == k) && |OwnedOpen(truth.open)| == 1
    requires !TargetCanceled(L.rows, Some(k)) ==> k in L.rows && !L.rows[k].state.Terminal()
    ensures outcome.BudgetExhausted? <==> !TargetCanceled(L.rows, Some(k)) && CountCleanup(L.order) >= MAX_CLEANUP_ACTIONS
  {
    assert ListedOpen(truth, k);
  }

  lemma OnlyListed(truth: AccountTruth, k: Kind)
    requires |OwnedOpen(truth.open)| == 1 && OwnedOpen(truth.open)[0].client == Owned(k)
    ensures forall m :: ListedOpen(truth, m) <==> m == k
  {
    assert OwnedOpen(truth.open)[0] in OwnedOpen(truth.open);
    forall m | ListedOpen(truth, m) ensures m == k { ListedIsOwned(truth, m); }
  }

  lemma WorkingIsUnfinished(start: System, steps: seq<Step>, truth: AccountTruth, seen: Exchange, k: Kind)
    requires Initial(start) && Run(start, steps) && Fresh(RunEnd(start, steps), truth, seen)
    requires ListedOpen(truth, k) && !TargetCanceled(RunEnd(start, steps).ledger.rows, Some(k))
    ensures Uncanceled(RunEnd(start, steps).ledger, k)
  {
    Reached(start, steps);
    assert KindTruthful(RunEnd(start, steps), k);
    ListedOrderIsUncanceled(RunEnd(start, steps), truth, seen, k);
  }

  /** The budget-exhausted branch of the cancel planner is dead whenever every natural leg was claimed with a slot left. */
  lemma CancelBudgetNeverExhausted(
    start: System, steps: seq<Step>, truth: AccountTruth, seen: Exchange, outcome: Recovery, M: Ledger, rules: SymbolRules)
    requires Initial(start) && Run(start, steps) && Fresh(RunEnd(start, steps), truth, seen)
    requires forall k :: k in RunEnd(start, steps).ledger.order && k.Natural() ==>
               SlotsAtClaim(RunEnd(start, steps).ledger.order, k) < MAX_CLEANUP_ACTIONS
    requires PlanOutcome(outcome, RunEnd(start, steps).ledger, M, truth, rules)
    ensures !outcome.BudgetExhausted?
  {
    if outcome.BudgetExhausted? {
      var L := RunEnd(start, steps).ledger;
      var k :| ListedOpen(truth, k) && !TargetCanceled(L.rows, Some(k));
      CancelSlotReserved(start, steps, truth, seen, k);
    }
  }

  /** In particular on every run that claims no natural leg after a cleanup action. */
  lemma NaturalFirstNeverExhausts(
    start: System, steps: seq<Step>, truth: AccountTruth, seen: Exchange, outcome: Recovery, M: Ledger, rules: SymbolRules)
    requires Initial(start) && Run(start, steps) && NaturalFirst(start, steps)
    requires Fresh(RunEnd(start, steps), truth, seen) && PlanOutcome(outcome, RunEnd(start, steps).ledger, M, truth, rules)
    ensures !outcome.BudgetExhausted?
  {
    NaturalFirstKeepsSlots(start, steps);
    CancelBudgetNeverExhausted(start, steps, truth, seen, outcome, M, rules);
  }

  /**
    The shipped lifecycle is such a caller.  Its control goes from ACTIVE to CLEANUP and never back, it
    observes bars only in ACTIVE and recovers only in CLEANUP: natural legs are claimed before some
    step, cleanup actions from it on -- whatever the ledger session says, RUNNING included.
  */
  lemma OneWayControlNeverExhausts(
    start: System, steps: seq<Step>, switch: nat, truth: AccountTruth, seen: Exchange, outcome: Recovery, M: Ledger, rules: SymbolRules)
    requires Initial(start) && Run(start, steps) && switch <= |steps| && OneWay(steps, switch)
    requires Fresh(RunEnd(start, steps), truth, seen) && PlanOutcome(outcome, RunEnd(start, steps).ledger, M, truth, rules)
    ensures !outcome.BudgetExhausted?
  {
    OneWayIsNaturalFirst(start, steps, switch);
    NaturalFirstNeverExhausts(start, steps, truth, seen, outcome, M, rules);
  }

  /** So is a caller that claims cleanup actions only out of RUNNING. */
  lemma CleaningLateNeverExhausts(
    start: System, steps: seq<Step>, truth: AccountTruth, seen: Exchange, outcome: Recovery, M: Ledger, rules: SymbolRules)
    requires Initial(start) && Run(start, steps) && CleansOutOfRunning(start, steps)
    requires Fresh(RunEnd(start, steps), truth, seen) && PlanOutcome(outcome, RunEnd(start, steps).ledger, M, truth, rules)
    ensures !outcome.BudgetExhausted?
  {
    InitialKept(start);
    CleaningLateIsNaturalFirst(start, steps);
    NaturalFirstNeverExhausts(start, steps, truth, seen, outcome, M, rules);
  }

  /** A filled flatten is the last one: what it leaves is nothing or dust, and no further flatten is planned. */
  lemma FlattenIsNotRepeated(
    rules: SymbolRules, owned: real, truth: AccountTruth, outcome: Recovery, L: Ledger, M: Ledger)
    requires rules.Parsed() && owned >= 0.0 && truth.markPrice > 0.0 && rules.NormalizeFlatten(owned).Done?
    requires TallyFills(truth.fills).Owned() == owned - rules.NormalizeFlatten(owned).value
    requires PlanOutcome(outcome, L, M, truth, rules)
    ensures !outcome.FlattenClaimed?
    ensures rules.UnorderableResidual(TallyFills(truth.fills).Owned(), truth.markPrice) == Done(true)
  {
    FlattenProgress(rules, owned, truth.markPrice);
    var rest := TallyFills(truth.fills).Owned();
    if rest > 0.0 {
      DustOrFlattenable(rules, rest, truth.markPrice);
    } else {
      FloorIsLargestMultiple(rules, rest, 0);
    }
  }

  /** With every claim terminal, every order the exchange ever accepted is finished. */
  lemma TerminalClaimsFinishOrder(s: System, k: Kind)
    requires AllTerminal(s.ledger) && KindTruthful(s, k) && Extends(s.seen, s.exchange)
    requires k in s.exchange.orders ==> k.Trade()
    ensures k in s.exchange.orders ==> s.exchange.orders[k].status.Terminal()
  {}

  /** Every order is finished and nothing is owned. */
  ghost predicate Flat(ex: Exchange) {
    && OwnedQuantity(ex.fills) == 0.0
    && forall k :: k in ex.orders ==> ex.orders[k].status.Terminal()
  }

  lemma FlatIsTrue(s: System, truth: AccountTruth, seen: Exchange)
    requires AllTerminal(s.ledger) && Histories(s) && (forall k: Kind :: KindTruthful(s, k))
    requires Sound(seen) && Extends(s.seen, seen) && Extends(seen, s.exchange) && TruthOf(truth, seen)
    ensures OwnedQuantity(s.exchange.fills) == TallyFills(truth.fills).Owned()
    ensures forall k :: k in s.exchange.orders ==> s.exchange.orders[k].status.Terminal()
  {
    TerminalClaimsFreezeFills(s, seen);
    TruthOwnedQuantity(truth, seen);
    forall k | k in s.exchange.orders ensures s.exchange.orders[k].status.Terminal() {
      TerminalClaimsFinishOrder(s, k);
    }
  }

  lemma FlatNow(s: System, truth: AccountTruth, seen: Exchange, M: Ledger, rules: SymbolRules)
    requires Kept(s) && Fresh(s, truth, seen) && PlanOutcome(BaselineFlat, s.ledger, M, truth, rules)
    ensures Flat(s.exchange)
  {
    FlatIsTrue(s, truth, seen);
  }

  /**
    BASELINE_FLAT is true of the exchange itself, not just of the snapshot it was read from: every
    order of the session is finished and not one BTC of it is owned.
  */
  lemma BaselineFlatIsTrue(
    start: System, steps: seq<Step>, truth: AccountTruth, seen: Exchange, M: Ledger, rules: SymbolRules)
    requires Initial(start) && Run(start, steps) && Fresh(RunEnd(start, steps), truth, seen)
    requires PlanOutcome(BaselineFlat, RunEnd(start, steps).ledger, M, truth, rules)
    ensures Flat(RunEnd(start, steps).exchange)
  {
    Reached(start, steps);
    FlatNow(RunEnd(start, steps), truth, seen, M, rules);
  }
}
