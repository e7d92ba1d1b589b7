/** The hypotheses of RecoverCancelsTheWorkingOrder are met by a session that has just bought. */
module RecoveryWitness {
  import opened FunctionalVocabulary
  import opened OwnerMetrics
  import opened SymbolFilters
  import opened DurableLedger
  import opened ExchangeModel
  import opened OrderProtocol
  import opened Reconciliation
  import opened ContinuousFunctionalService
  import opened RecoveryProgress
  import opened ProtocolWitnesses

  lemma ReachableFresh(s: System)
    requires Reachable(s)
    ensures Fresh(s, Snapshot(s), s.exchange)
  {
    ReachableKept(s);
  }

  const RECOVERY_CALL := Call(1, true, true, true, EPOCH)

  lemma BuyShown(s: System, truth: AccountTruth)
    requires s.ledger.order == [Buy] && truth == Snapshot(s)
    requires s.exchange.orders.Keys == {Buy} && s.exchange.orders[Buy].action.kind == Buy && s.exchange.orders[Buy].status.New?
    ensures OneWorking(truth, Buy) && ShowsOrders(truth, s.exchange)
  {
    OnlyRow(Buy, s.exchange);
    ShowsOnlyRow(Buy, truth, s.exchange);
  }

  lemma OnlyRow(k: Kind, ex: Exchange)
    requires k in ex.orders && !ex.orders[k].status.Terminal()
    ensures RowsShown([k], ex, true) == [RowShown(k, ex)] && RowsShown([k], ex, false) == []
  {
    assert [k][..0] == [];
  }

  lemma ShowsOnlyRow(k: Kind, truth: AccountTruth, ex: Exchange)
    requires ex.orders.Keys == {k} && k.Trade() && ex.orders[k].action.kind == k && ex.orders[k].status.New?
    requires truth.open == [RowShown(k, ex)] && truth.closed == []
    ensures OwnedOpen(truth.open) == truth.open && ShowsOrders(truth, ex)
  {
    var row := RowShown(k, ex);
    assert OwnedOpen([row][..0]) == [];
    assert truth.AllRows() == [row];
    assert IsOnly(truth.AllRows(), Owned(k), None, 0);
    assert Shown(row, k, truth, ex);
  }

  lemma BuyRecoverable(s: System, truth: AccountTruth)
    requires BuyOnly(s, Acknowledged) && s.exchange.fills == [] && truth == Snapshot(s)
    ensures RecoveryAdmitted(s.ledger.session, RECOVERY_CALL, truth) && !Mixed(truth)
    ensures forall m :: m in s.ledger.rows ==> Current(truth, s.ledger.rows[m])
    ensures !TargetCanceled(s.ledger.rows, Some(Buy))
    ensures CountCleanup(s.ledger.order) == 0 && EPOCH < s.ledger.session.cleanupDeadline
    ensures Buy in s.exchange.orders ==> Dispatched(s.ledger, s.exchange)
  {
    assert [Buy][..0] == [];
  }

  lemma BuyCancelable(s: System)
    requires BuyOnly(s, Acknowledged) && s.exchange.fills == []
    requires s.exchange.orders == map[Buy := Order(BUY_LOT, 0, New, EPOCH + NONACCEPTANCE_MIN_AGE)]
    requires Fresh(s, Snapshot(s), s.exchange)
    ensures Cancelable(s, Snapshot(s), s.exchange, Buy, RECOVERY_CALL)
  {
    BuyShown(s, Snapshot(s));
    BuyRecoverable(s, Snapshot(s));
  }

  lemma ReachableOnlyCancels(s: System, truth: AccountTruth, k: Kind, call: Call, rules: SymbolRules)
    requires Reachable(s) && Cancelable(s, truth, s.exchange, k, call)
    ensures forall reply, M, N :: RecoveryAnswer(s.ledger, reply, M, N, call, truth, rules) ==> Cancels(s.ledger, reply, N, k)
  {
    var start, steps :| Initial(start) && Run(start, steps) && RunEnd(start, steps) == s;
    RecoverOnlyCancels(start, steps, truth, s.exchange, k, call, rules);
  }

  /** A fresh session reaches a working BUY; whatever recover answers on the truth of that moment is a claimed cancel of it. */
  lemma WorkingBuyIsCanceled(rules: SymbolRules) returns (s: System, truth: AccountTruth)
    ensures Reachable(s) && Fresh(s, truth, s.exchange)
    ensures s.ledger.rows.Keys == {Buy} && s.ledger.rows[Buy].state.Acknowledged?
    ensures forall reply, M, N :: RecoveryAnswer(s.ledger, reply, M, N, RECOVERY_CALL, truth, rules) ==> Cancels(s.ledger, reply, N, Buy)
  {
    s := BuyWorking();
    truth := Snapshot(s);
    ReachableFresh(s);
    BuyCancelable(s);
    ReachableOnlyCancels(s, truth, Buy, RECOVERY_CALL, rules);
  }
}
