/**
  What recover gets done: on a truth that shows every order as it is, reconciliation never stops at a
  sent claim, and the planner does the one thing the account and the slots left allow.
*/
module RecoveryProgress {
  import opened FunctionalVocabulary
  import opened OwnerMetrics
  import opened SymbolFilters
  import opened DurableLedger
  import opened ExchangeModel
  import opened OrderProtocol
  import opened ProtocolInvariant
  import opened LedgerPreservation
  import opened SystemPreservation
  import opened ProtocolSafety
  import opened Reconciliation
  import opened ContinuousFunctionalService

  // ---- Cancels name real orders ------------------------------------------------------------------------

  /** Every cancel names an order the exchange was seen to have, by its broker id. */
  ghost predicate CancelsReal(s: System) {
    forall c :: c in s.ledger.rows && c.Cancel? ==> NamesOrder(s.ledger.rows[c].action, s.seen)
  }

  predicate NamesOrder(a: SealedAction, seen: Exchange) {
    a.target.Some? && a.target.value in seen.orders && seen.orders[a.target.value].orderId == a.targetOrderId
  }

  lemma SeenWorkingIsReal(truth: AccountTruth, seen: Exchange, a: SealedAction)
    requires TruthOf(truth, seen) && a.target.Some? && SeenWorking(truth, a.target.value, a.targetOrderId)
    ensures NamesOrder(a, seen)
  {
    var row :| row in truth.open && row.client == Owned(a.target.value) && row.orderId == a.targetOrderId;
    assert row in truth.AllRows();
  }

  lemma StillReal(s: System, t: System)
    requires CancelsReal(s) && Quieter(s.ledger, t.ledger) && Extends(s.seen, t.seen)
    ensures CancelsReal(t)
  {
    forall c | c in t.ledger.rows && c.Cancel? ensures NamesOrder(t.ledger.rows[c].action, t.seen) {
      assert c in s.ledger.rows && NamesOrder(s.ledger.rows[c].action, s.seen);
    }
  }

  lemma ClaimStaysReal(s: System, a: SealedAction, truth: AccountTruth, seen: Exchange)
    requires Kept(s) && CancelsReal(s) && StepLegal(s, Service(Claim(a), truth, seen))
    ensures CancelsReal(StepAfter(s, Service(Claim(a), truth, seen)))
  {
    ClaimStep(s, a, truth, seen);
    if a.kind.Cancel? { SeenWorkingIsReal(truth, seen, a); }
    var t := StepAfter(s, Service(Claim(a), truth, seen));
    forall c | c in t.ledger.rows && c.Cancel? ensures NamesOrder(t.ledger.rows[c].action, t.seen) {
      if c != a.kind { assert c in s.ledger.rows && NamesOrder(s.ledger.rows[c].action, s.seen); }
    }
  }

  lemma CancelsRealStep(s: System, step: Step)
    requires Kept(s) && CancelsReal(s) && StepLegal(s, step)
    ensures CancelsReal(StepAfter(s, step))
  {
    match step
    case Service(m, truth, seen) =>
      if m.Claim? {
        ClaimStaysReal(s, m.action, truth, seen);
      } else {
        MoveQuieter(s.ledger, m, truth, s.now);
        StillReal(s, StepAfter(s, step));
      }
    case Dispatch(m, truth, seen) =>
      DispatchQuieter(s, m, truth);
      StillReal(s, StepAfter(s, step));
    case _ =>
  }

  lemma {:induction false} CancelsRealRun(s: System, steps: seq<Step>)
    requires Kept(s) && CancelsReal(s) && Run(s, steps)
    ensures CancelsReal(RunEnd(s, steps))
    decreases |steps|
  {
    if steps != [] {
      StepKept(s, steps[0]);
      CancelsRealStep(s, steps[0]);
      CancelsRealRun(StepAfter(s, steps[0]), steps[1..]);
    }
  }

  // ---- A truth that shows every order --------------------------------------------------------------------

  /** Each order is listed once, as it was asked for, open exactly while it works, with what its fills add up to. */
  ghost predicate ShowsOrders(truth: AccountTruth, seen: Exchange) {
    forall k :: k in seen.orders ==> exists order :: Shown(order, k, truth, seen)
  }

  ghost predicate Shown(order: OrderRow, k: Kind, truth: AccountTruth, seen: Exchange)
    requires k in seen.orders
  {
    && ListedOnce(truth.AllRows(), Owned(k), None, order)
    && AskedFor(order, seen.orders[k].action)
    && order.orderId == seen.orders[k].orderId && order.status == seen.orders[k].status
    && (order in truth.open <==> !order.status.Terminal())
    && order.executedQty == Executed(seen.fills, k) && order.executedQuote == ExecutedQuote(seen.fills, k)
    && (order.status.Filled? ==> order.executedQty > 0.0 && order.executedQuote > 0.0)
  }

  lemma {:induction false} ExecutedIgnoresForeign(fills: seq<Fill>, k: Kind)
    ensures Executed(OwnedFills(fills), k) == Executed(fills, k) && ExecutedQuote(OwnedFills(fills), k) == ExecutedQuote(fills, k)
  {
    if fills != [] {
      var rest, last := fills[..|fills| - 1], fills[|fills| - 1];
      ExecutedIgnoresForeign(rest, k);
      if last.client.Owned? { ExecutedAppend(OwnedFills(rest), last, k); }
    }
  }

  lemma {:induction false} ExecutedCounts(fills: seq<Fill>, k: Kind)
    requires forall i :: 0 <= i < |fills| ==> HonestFill(fills[i])
    ensures Executed(fills, k) >= 0.0 && (Executed(fills, k) > 0.0 <==> exists f :: f in fills && f.client == Owned(k))
  {
    if fills != [] {
      var rest, last := fills[..|fills| - 1], fills[|fills| - 1];
      assert fills == rest + [last];
      ExecutedCounts(rest, k);
    }
  }

  lemma ShownIsAccounted(order: OrderRow, k: Kind, truth: AccountTruth, seen: Exchange)
    requires Sound(seen) && TruthOf(truth, seen) && k in seen.orders && Shown(order, k, truth, seen)
    ensures Accounted(order, truth, k)
  {
    ExecutedIgnoresForeign(truth.fills, k);
    ExecutedCounts(seen.fills, k);
    forall f: Fill | f.client == Owned(k) ensures f in truth.fills <==> f in seen.fills {
      assert f in OwnedFills(truth.fills) <==> f in truth.fills;
    }
  }

  lemma ShownByBrokerId(order: OrderRow, rows: seq<OrderRow>, client: ClientId)
    requires ListedOnce(rows, client, None, order)
    ensures ListedOnce(rows, client, Some(order.orderId), order)
  {
    var i :| 0 <= i < |rows| && rows[i] == order && IsOnly(rows, client, None, i);
    assert IsOnly(rows, client, Some(order.orderId), i) by {
      forall j | 0 <= j < |rows| ensures IsOrder(rows[j], client, Some(order.orderId)) <==> j == i {
        assert IsOrder(rows[j], client, None) <==> j == i;
      }
    }
  }

  lemma NotListedNoRow(truth: AccountTruth, seen: Exchange, k: Kind)
    requires Sound(seen) && TruthOf(truth, seen) && k !in seen.orders
    ensures (forall order :: order in truth.AllRows() ==> order.client != Owned(k))
         && (forall f :: f in truth.fills ==> f.client != Owned(k))
  {
    forall f | f in truth.fills && f.client.Owned? ensures f.client.kind in seen.orders {
      assert f in OwnedFills(truth.fills);
    }
  }

  // ---- Reconciliation never stops ------------------------------------------------------------------------

  ghost predicate Readable(s: System, truth: AccountTruth, seen: Exchange) {
    && Kept(s) && CancelsReal(s) && Fresh(s, truth, seen) && ShowsOrders(truth, seen)
    && (forall k :: k in s.ledger.rows ==> Current(truth, s.ledger.rows[k]))
  }

  /** What a readable truth says about one claim. */
  lemma ReadableClaim(s: System, truth: AccountTruth, seen: Exchange, k: Kind)
    requires Readable(s, truth, seen) && k in s.ledger.rows
    ensures Sound(seen) && TruthOf(truth, seen) && ShowsOrders(truth, seen) && Current(truth, s.ledger.rows[k])
    ensures k in seen.orders ==> s.ledger.rows[k].action == seen.orders[k].action && k.Trade()
    ensures s.ledger.rows[k].state.NotSent? ==> k !in seen.orders
    ensures k.Cancel? ==> NamesOrder(s.ledger.rows[k].action, seen)
  {
    assert KindTruthful(s, k);
    if k.Cancel? { assert NamesOrder(s.ledger.rows[k].action, s.seen); }
  }

  /** A sent trade whose order is listed is pending while it works and settled once it is finished. */
  lemma ListedTradeVerdict(row: ActionRow, k: Kind, truth: AccountTruth, seen: Exchange)
    requires Sound(seen) && TruthOf(truth, seen) && ShowsOrders(truth, seen) && Current(truth, row)
    requires k.Trade() && SentState(row.state) && k in seen.orders && row.action == seen.orders[k].action
    ensures VerdictOn(row, k, truth, false) == (if seen.orders[k].status.Terminal() then Settle(Reconciled) else Keep)
  {
    var order :| Shown(order, k, truth, seen);
    assert OrderOf(row, k, truth, order);
    ShownIsAccounted(order, k, truth, seen);
    VerdictsMean(row, k, truth, false);
  }

  /** A sent cancel is pending while its target works and settled once it is finished. */
  lemma ListedCancelVerdict(row: ActionRow, k: Kind, truth: AccountTruth, seen: Exchange)
    requires TruthOf(truth, seen) && ShowsOrders(truth, seen) && Current(truth, row)
    requires k.Cancel? && SentState(row.state) && NamesOrder(row.action, seen)
    ensures VerdictOn(row, k, truth, false)
         == (if seen.orders[row.action.target.value].status.Terminal() then Settle(Reconciled) else Keep)
  {
    var target := row.action.target.value;
    var order :| Shown(order, target, truth, seen);
    ShownByBrokerId(order, truth.AllRows(), Owned(target));
    assert OrderOf(row, k, truth, order);
    VerdictsMean(row, k, truth, false);
  }

  lemma NeverSentVerdict(row: ActionRow, k: Kind, truth: AccountTruth, seen: Exchange)
    requires Sound(seen) && TruthOf(truth, seen) && Current(truth, row) && row.state.NotSent? && k !in seen.orders
    ensures VerdictOn(row, k, truth, false) == Settle(ProvenNotAccepted)
  {
    NotListedNoRow(truth, seen, k);
    VerdictsMean(row, k, truth, false);
  }

  lemma UnlistedTradeVerdict(row: ActionRow, k: Kind, truth: AccountTruth, seen: Exchange)
    requires Sound(seen) && TruthOf(truth, seen) && k.Trade() && SentState(row.state) && k !in seen.orders
    ensures VerdictOn(row, k, truth, false).Stop?
  {
    NotListedNoRow(truth, seen, k);
    forall order ensures !OrderOf(row, k, truth, order) {
      if ListedOnce(truth.AllRows(), Owned(k), None, order) { OnceIsRow(truth.AllRows(), Owned(k), order); }
    }
    VerdictsMean(row, k, truth, false);
  }

  lemma OnceIsRow(rows: seq<OrderRow>, client: ClientId, order: OrderRow)
    requires ListedOnce(rows, client, None, order)
    ensures order in rows && order.client == client
  {}

  /**
    On a readable truth reconciliation stops at a claim exactly when it was sent and its order is not
    listed: the one case in which nobody knows what became of it.
  */
  lemma StopsOnlyAtUnlisted(s: System, truth: AccountTruth, seen: Exchange, k: Kind)
    requires Readable(s, truth, seen) && k in s.ledger.rows
    ensures VerdictOn(s.ledger.rows[k], k, truth, false).Stop? <==>
              k.Trade() && SentState(s.ledger.rows[k].state) && k !in seen.orders
  {
    var row := s.ledger.rows[k];
    ReadableClaim(s, truth, seen, k);
    if row.state.NotSent? {
      NeverSentVerdict(row, k, truth, seen);
    } else if SentState(row.state) {
      if k.Cancel? {
        ListedCancelVerdict(row, k, truth, seen);
      } else if k in seen.orders {
        ListedTradeVerdict(row, k, truth, seen);
      } else {
        UnlistedTradeVerdict(row, k, truth, seen);
      }
    }
  }

  lemma ReachedReadable(start: System, steps: seq<Step>, truth: AccountTruth, seen: Exchange)
    requires Initial(start) && Run(start, steps) && Fresh(RunEnd(start, steps), truth, seen) && ShowsOrders(truth, seen)
    requires forall k :: k in RunEnd(start, steps).ledger.rows ==> Current(truth, RunEnd(start, steps).ledger.rows[k])
    ensures Readable(RunEnd(start, steps), truth, seen)
  {
    InitialKept(start);
    Reached(start, steps);
    CancelsRealRun(start, steps);
  }

  // ---- What the planner answers ---------------------------------------------------------------------------

  /** Twelve cleanup actions, the last of them for a cancel. */
  lemma BudgetIsTwelve()
    ensures MAX_CLEANUP_ACTIONS == 12
  {}

  /** With one owned working order the planner answers by its cancels and by the slots taken, nothing else. */
  lemma PlansTheWorkingOrder(outcome: Recovery, L: Ledger, M: Ledger, truth: AccountTruth, rules: SymbolRules, k: Kind)
    requires PlanOutcome(outcome, L, M, truth, rules)
    requires OneWorking(truth, k)
    ensures outcome.CancelAlreadyClaimed? <==> TargetCanceled(L.rows, Some(k))
    ensures outcome.BudgetExhausted? <==> !TargetCanceled(L.rows, Some(k)) && CountCleanup(L.order) >= 12
    ensures outcome.CancelClaimed? <==> !TargetCanceled(L.rows, Some(k)) && CountCleanup(L.order) < 12
    ensures outcome.CancelClaimed? ==>
              && M.order == L.order + [outcome.kind] && outcome.kind in M.rows
              && M.rows[outcome.kind].action.target == Some(k)
              && M.rows[outcome.kind].action.targetOrderId == OwnedOpen(truth.open)[0].orderId
    ensures !outcome.CancelClaimed? ==> M == L
  {
    forall m | ListedOpen(truth, m) ensures m == k { OneWorkingOnly(truth, k, m); }
    match outcome
    case CancelClaimed(_) =>
    case CancelAlreadyClaimed =>
    case BudgetExhausted =>
    case _ =>
  }

  /** With none, it answers by what is owned, the slots taken and what the exchange would accept. */
  lemma PlansTheResidue(outcome: Recovery, L: Ledger, M: Ledger, truth: AccountTruth, rules: SymbolRules)
    requires PlanOutcome(outcome, L, M, truth, rules) && OwnedOpen(truth.open) == []
    requires TallyFills(truth.fills).Owned() >= 0.0 && truth.markPrice > 0.0
    ensures var owned := TallyFills(truth.fills).Owned();
            && (outcome.BaselineFlat? <==> owned == 0.0)
            && (outcome.SlotPreserved? <==> owned > 0.0 && CountCleanup(L.order) >= 11)
            && (outcome.Dust? <==>
                  owned > 0.0 && CountCleanup(L.order) < 11 && rules.Parsed() && rules.UnorderableResidual(owned, truth.markPrice) == Done(true))
            && (outcome.FlattenClaimed? <==>
                  owned > 0.0 && CountCleanup(L.order) < 11 && rules.Parsed() && rules.NormalizeFlatten(owned).Done?)
            && (outcome.FlattenClaimed? ==>
                  && M.order == L.order + [outcome.kind] && outcome.kind in M.rows
                  && rules.NormalizeFlatten(owned) == Done(M.rows[outcome.kind].action.quantity))
            && (!outcome.FlattenClaimed? ==> M == L)
  {
    var owned := TallyFills(truth.fills).Owned();
    forall m ensures !ListedOpen(truth, m) { if ListedOpen(truth, m) { NothingOwnedOpen(truth, m); } }
    if rules.Parsed() && owned > 0.0 { DustOrFlattenable(rules, owned, truth.markPrice); }
  }

  lemma NothingOwnedOpen(truth: AccountTruth, m: Kind)
    requires OwnedOpen(truth.open) == []
    ensures !ListedOpen(truth, m)
  {
    if ListedOpen(truth, m) { ListedIsOwned(truth, m); }
  }

  // ---- Recover cancels the working order ---------------------------------------------------------------------

  /** No claim waits for its dispatch, and every sent trade has its order listed. */
  ghost predicate Dispatched(L: Ledger, seen: Exchange) {
    forall m :: m in L.rows ==>
      !L.rows[m].state.Claimed? && (m.Trade() && SentState(L.rows[m].state) ==> m in seen.orders)
  }

  ghost predicate OneWorking(truth: AccountTruth, k: Kind) {
    |OwnedOpen(truth.open)| == 1 && OwnedOpen(truth.open)[0].client == Owned(k)
  }

  lemma WorkingIsListedOpen(truth: AccountTruth, seen: Exchange, m: Kind)
    requires ShowsOrders(truth, seen) && m in seen.orders && !seen.orders[m].status.Terminal()
    ensures ListedOpen(truth, m)
  {
    var order :| Shown(order, m, truth, seen);
    OnceIsRow(truth.AllRows(), Owned(m), order);
  }

  lemma OneWorkingOnly(truth: AccountTruth, k: Kind, m: Kind)
    requires OneWorking(truth, k) && ListedOpen(truth, m)
    ensures m == k
  {
    ListedIsOwned(truth, m);
  }

  /** A sent trade is settled or its order is listed open. */
  lemma TradeLeft(row: ActionRow, m: Kind, truth: AccountTruth, seen: Exchange, now: real)
    requires Sound(seen) && TruthOf(truth, seen) && ShowsOrders(truth, seen) && Current(truth, row)
    requires m.Trade() && SentState(row.state) && m in seen.orders && row.action == seen.orders[m].action
    ensures SettledRow(row, m, truth, false, now).state.Terminal() || ListedOpen(truth, m)
  {
    ListedTradeVerdict(row, m, truth, seen);
    if !seen.orders[m].status.Terminal() { WorkingIsListedOpen(truth, seen, m); }
  }

  /** A sent cancel of anything but the working order is settled. */
  lemma CancelLeft(row: ActionRow, m: Kind, truth: AccountTruth, seen: Exchange, k: Kind, now: real)
    requires TruthOf(truth, seen) && ShowsOrders(truth, seen) && Current(truth, row) && OneWorking(truth, k)
    requires m.Cancel? && SentState(row.state) && NamesOrder(row.action, seen) && row.action.target != Some(k)
    ensures SettledRow(row, m, truth, false, now).state.Terminal()
  {
    ListedCancelVerdict(row, m, truth, seen);
    var target := row.action.target.value;
    if !seen.orders[target].status.Terminal() {
      WorkingIsListedOpen(truth, seen, target);
      OneWorkingOnly(truth, k, target);
    }
  }

  /** Whatever reconciliation leaves unfinished is the working order itself. */
  lemma OnlyTheWorkingOrderIsLeft(s: System, truth: AccountTruth, seen: Exchange, k: Kind, m: Kind, now: real)
    requires Readable(s, truth, seen) && Dispatched(s.ledger, seen) && OneWorking(truth, k)
    requires !TargetCanceled(s.ledger.rows, Some(k)) && m in s.ledger.rows
    ensures SettledRow(s.ledger.rows[m], m, truth, false, now).state.Terminal() || ListedOpen(truth, m)
  {
    ReadableClaim(s, truth, seen, m);
    ClaimLeft(s.ledger.rows[m], m, truth, seen, k, now);
  }

  lemma NeverSentLeft(row: ActionRow, m: Kind, truth: AccountTruth, seen: Exchange, now: real)
    requires Sound(seen) && TruthOf(truth, seen) && Current(truth, row) && row.state.NotSent? && m !in seen.orders
    ensures SettledRow(row, m, truth, false, now).state.Terminal()
  {
    NeverSentVerdict(row, m, truth, seen);
  }

  lemma FinishedLeft(row: ActionRow, m: Kind, truth: AccountTruth, now: real)
    requires !row.state.NotSent? && !row.state.Claimed? && !SentState(row.state)
    ensures SettledRow(row, m, truth, false, now).state.Terminal()
  {}

  lemma ClaimLeft(row: ActionRow, m: Kind, truth: AccountTruth, seen: Exchange, k: Kind, now: real)
    requires Sound(seen) && TruthOf(truth, seen) && ShowsOrders(truth, seen) && Current(truth, row) && OneWorking(truth, k)
    requires !row.state.Claimed? && (m.Trade() && SentState(row.state) ==> m in seen.orders)
    requires m in seen.orders ==> row.action == seen.orders[m].action
    requires row.state.NotSent? ==> m !in seen.orders
    requires m.Cancel? ==> NamesOrder(row.action, seen) && row.action.target != Some(k)
    ensures SettledRow(row, m, truth, false, now).state.Terminal() || ListedOpen(truth, m)
  {
    if row.state.NotSent? {
      NeverSentLeft(row, m, truth, seen, now);
    } else if !SentState(row.state) {
      FinishedLeft(row, m, truth, now);
    } else {
      if m.Trade() { TradeLeft(row, m, truth, seen, now); } else { CancelLeft(row, m, truth, seen, k, now); }
    }
  }

  lemma SettlingKeepsAction(row: ActionRow, m: Kind, truth: AccountTruth, now: real)
    ensures SettledRow(row, m, truth, false, now).action == row.action
  {}

  lemma SettledCancelsAlike(L: Ledger, rows: map<Kind, ActionRow>, truth: AccountTruth, now: real, k: Kind)
    requires Settled(L, rows, truth, now)
    ensures TargetCanceled(rows, Some(k)) <==> TargetCanceled(L.rows, Some(k))
  {
    forall m | m in rows ensures rows[m].action == L.rows[m].action { SettlingKeepsAction(L.rows[m], m, truth, now); }
  }

  lemma NothingUnsafe(s: System, truth: AccountTruth, seen: Exchange, k: Kind, M: Ledger, now: real)
    requires Readable(s, truth, seen) && Dispatched(s.ledger, seen) && OneWorking(truth, k)
    requires !TargetCanceled(s.ledger.rows, Some(k)) && Settled(s.ledger, M.rows, truth, now)
    ensures !HasUnsafePending(M, truth) && !TargetCanceled(M.rows, Some(k))
  {
    forall m | m in M.rows ensures M.rows[m].state.Terminal() || ListedOpen(truth, m) {
      OnlyTheWorkingOrderIsLeft(s, truth, seen, k, m, now);
    }
    SettledCancelsAlike(s.ledger, M.rows, truth, now, k);
  }

  lemma NothingStops(s: System, truth: AccountTruth, seen: Exchange)
    requires Readable(s, truth, seen) && Dispatched(s.ledger, seen)
    ensures NoStop(s.ledger, |s.ledger.order|, truth, false)
  {
    forall m | m in s.ledger.order[..|s.ledger.order|] && m in s.ledger.rows
      ensures !VerdictOn(s.ledger.rows[m], m, truth, false).Stop?
    {
      StopsOnlyAtUnlisted(s, truth, seen, m);
    }
  }

  /** A truth no older than the claims shows every order, one of them working, uncanceled and with a slot left. */
  ghost predicate Cancelable(s: System, truth: AccountTruth, seen: Exchange, k: Kind, call: Call) {
    && Fresh(s, truth, seen) && ShowsOrders(truth, seen)
    && (forall m :: m in s.ledger.rows ==> Current(truth, s.ledger.rows[m]))
    && Dispatched(s.ledger, seen) && OneWorking(truth, k)
    && !TargetCanceled(s.ledger.rows, Some(k)) && CountCleanup(s.ledger.order) < 12
    && RecoveryAdmitted(s.ledger.session, call, truth) && !Mixed(truth) && call.now < s.ledger.session.cleanupDeadline
  }

  /** The answer is a cancel of this order, claimed as the next and only new row. */
  predicate Cancels(L: Ledger, reply: Reply<Recovery>, N: Ledger, k: Kind) {
    && reply.Done? && reply.value.CancelClaimed?
    && N.order == L.order + [reply.value.kind] && reply.value.kind in N.rows
    && N.rows[reply.value.kind].action.target == Some(k)
  }

  /**
    Recover always gets a working order out of the way: on every reachable state, with a truth that
    shows every order and is no older than the claims, no cancel claimed for that order and a slot
    left, the answer is a claimed cancel of exactly that order.
  */
  lemma RecoverCancelsTheWorkingOrder(
    start: System, steps: seq<Step>, truth: AccountTruth, seen: Exchange, k: Kind, call: Call, rules: SymbolRules,
    reply: Reply<Recovery>, M: Ledger, N: Ledger)
    requires Initial(start) && Run(start, steps) && Cancelable(RunEnd(start, steps), truth, seen, k, call)
    requires RecoveryAnswer(RunEnd(start, steps).ledger, reply, M, N, call, truth, rules)
    ensures Cancels(RunEnd(start, steps).ledger, reply, N, k)
  {
    var s := RunEnd(start, steps);
    ReachedReadable(start, steps, truth, seen);
    NothingStops(s, truth, seen);
    RecoveryPlans(s, truth, seen, k, call, rules, reply, M, N);
    PlansTheWorkingOrder(reply.value, M, N, truth, rules, k);
  }

  /** The same of whatever it answers. */
  lemma RecoverOnlyCancels(start: System, steps: seq<Step>, truth: AccountTruth, seen: Exchange, k: Kind, call: Call, rules: SymbolRules)
    requires Initial(start) && Run(start, steps) && Cancelable(RunEnd(start, steps), truth, seen, k, call)
    ensures forall reply, M, N :: RecoveryAnswer(RunEnd(start, steps).ledger, reply, M, N, call, truth, rules) ==>
              Cancels(RunEnd(start, steps).ledger, reply, N, k)
  {
    forall reply, M, N | RecoveryAnswer(RunEnd(start, steps).ledger, reply, M, N, call, truth, rules)
      ensures Cancels(RunEnd(start, steps).ledger, reply, N, k)
    {
      RecoverCancelsTheWorkingOrder(start, steps, truth, seen, k, call, rules, reply, M, N);
    }
  }

  lemma RecoveryPlans(
    s: System, truth: AccountTruth, seen: Exchange, k: Kind, call: Call, rules: SymbolRules,
    reply: Reply<Recovery>, M: Ledger, N: Ledger)
    requires Readable(s, truth, seen) && Dispatched(s.ledger, seen) && OneWorking(truth, k)
    requires NoStop(s.ledger, |s.ledger.order|, truth, false) && !TargetCanceled(s.ledger.rows, Some(k))
    requires RecoveryAdmitted(s.ledger.session, call, truth) && !Mixed(truth) && call.now < s.ledger.session.cleanupDeadline
    requires RecoveryAnswer(s.ledger, reply, M, N, call, truth, rules)
    ensures reply.Done? && PlanOutcome(reply.value, M, N, truth, rules)
    ensures M.order == s.ledger.order && !TargetCanceled(M.rows, Some(k))
  {
    NothingUnsafe(s, truth, seen, k, M, call.now);
  }
}
