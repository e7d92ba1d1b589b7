/** Every ledger transaction the protocol makes keeps the ledger invariants. */
module LedgerPreservation {
  import opened FunctionalVocabulary
  import opened DurableLedger
  import opened ExchangeModel
  import opened OrderProtocol
  import opened ProtocolInvariant

  function WithRow(L: Ledger, k: Kind, row: ActionRow): Ledger { L.(rows := L.rows[k := row]) }

  lemma RowBookkeeping(L: Ledger, k: Kind, row: ActionRow)
    requires Bookkeeping(L) && k in L.rows && row.action == L.rows[k].action
    ensures Bookkeeping(WithRow(L, k, row))
  {
    assert WithRow(L, k, row).rows.Keys == L.rows.Keys;
  }

  lemma RowChangeTargets(L: Ledger, k: Kind, row: ActionRow)
    requires CancelTargets(L) && CapsHeld(L) && k in L.rows && row.action == L.rows[k].action
    ensures CancelTargets(WithRow(L, k, row)) && CapsHeld(WithRow(L, k, row))
  {
    assert WithRow(L, k, row).rows.Keys == L.rows.Keys;
  }

  lemma RowChangeSingle(L: Ledger, k: Kind, row: ActionRow)
    requires SingleInFlight(L)
    requires k in L.rows && !L.rows[k].state.Terminal()
    ensures SingleInFlight(WithRow(L, k, row))
  {
  }

  lemma RowChangeBars(L: Ledger, k: Kind, row: ActionRow)
    requires Bars(L) && k in L.rows && row.action == L.rows[k].action
    ensures Bars(WithRow(L, k, row))
  {
  }

  /** Any rewrite of one unfinished row that leaves its sealed action alone. */
  lemma RowChangeKept(L: Ledger, k: Kind, row: ActionRow)
    requires LedgerKept(L)
    requires k in L.rows && !L.rows[k].state.Terminal() && row.action == L.rows[k].action
    requires AbsenceTruthful(row, k) && MarkerTruthful(row)
    ensures LedgerKept(WithRow(L, k, row))
  {
    RowBookkeeping(L, k, row);
    RowChangeTargets(L, k, row);
    RowChangeSingle(L, k, row);
    RowChangeBars(L, k, row);
    assert FinalSealed(WithRow(L, k, row));
  }

  lemma RestateKept(L: Ledger, state: SessionState, recovery: bool)
    requires LedgerKept(L) && !L.session.state.Final() && !state.Final()
    ensures LedgerKept(WithSessionState(L, state, recovery))
  {
  }

  lemma SealKept(L: Ledger, state: SessionState, evidence: Evidence)
    requires LedgerKept(L) && state.Final() && AllTerminal(L)
    ensures LedgerKept(WithSeal(L, state, evidence))
  {
  }

  lemma EvaluateKept(L: Ledger, e: Evaluation)
    requires LedgerKept(L) && EvaluationAllowed(L, e)
    ensures LedgerKept(WithEvaluation(L, e))
  {
    var M := WithEvaluation(L, e);
    assert Increasing(M.evaluations) by {
      forall i, j | 0 <= i < j < |M.evaluations| ensures M.evaluations[i].barClose < M.evaluations[j].barClose {
        if j == |L.evaluations| {
          var last := |L.evaluations| - 1;
          assert L.evaluations[i].barClose <= L.evaluations[last].barClose;
        }
      }
    }
  }

  lemma CountsAppend(order: seq<Kind>, k: Kind)
    ensures CountCleanup(order + [k]) == CountCleanup(order) + (if k.ForCleanup() then 1 else 0)
    ensures CountCancels(order + [k]) == CountCancels(order) + (if k.Cancel? then 1 else 0)
  {
    assert (order + [k])[..|order|] == order;
  }

  lemma ClaimListed(L: Ledger, a: SealedAction, now: real, preBase: Option<real>, preQuote: Option<real>)
    requires OrderListsRows(L) && a.kind !in L.rows
    ensures OrderListsRows(WithClaim(L, a, now, preBase, preQuote))
  {
    var M := WithClaim(L, a, now, preBase, preQuote);
    assert forall k :: k in M.order <==> k in L.order || k == a.kind;
  }

  lemma ClaimCounted(L: Ledger, a: SealedAction, now: real, preBase: Option<real>, preQuote: Option<real>)
    requires CountersExact(L) && ClaimAllowed(L, a)
    ensures CountersExact(WithClaim(L, a, now, preBase, preQuote))
  {
    CountsAppend(L.order, a.kind);
    var M := WithClaim(L, a, now, preBase, preQuote);
    assert M.rows.Keys == L.rows.Keys + {a.kind};
  }

  /** A cancel names a trade: no exchange order carries a cancel's own client id. */
  predicate CancelsTrade(a: SealedAction) { a.kind.Cancel? && a.target.Some? ==> a.target.value.Trade() }

  lemma ClaimTargets(L: Ledger, a: SealedAction, truth: AccountTruth, now: real)
    requires CancelTargets(L) && CapsHeld(L) && ClaimJustified(L, a, truth, now) && CancelsTrade(a)
    ensures CancelTargets(MoveAfterClaim(L, a, truth, now)) && CapsHeld(MoveAfterClaim(L, a, truth, now))
  {
  }

  function MoveAfterClaim(L: Ledger, a: SealedAction, truth: AccountTruth, now: real): Ledger {
    WithClaim(L, a, now, Some(truth.baseTotal), Some(truth.quoteTotal))
  }

  /** A trade is claimed only when nothing is pending; a cancel only when at most its target is. */
  lemma ClaimSingle(L: Ledger, a: SealedAction, truth: AccountTruth, now: real)
    requires SingleInFlight(L) && ClaimJustified(L, a, truth, now) && CancelsTrade(a)
    ensures SingleInFlight(MoveAfterClaim(L, a, truth, now))
  {
    assert a.kind.Trade() ==> AllTerminal(L);
  }

  lemma ClaimBars(L: Ledger, a: SealedAction, truth: AccountTruth, now: real)
    requires Bars(L) && Bookkeeping(L) && ClaimJustified(L, a, truth, now)
    ensures Bars(MoveAfterClaim(L, a, truth, now))
  {
    if a.kind.Sell? {
      var bought := Evaluation(L.rows[Buy].action.barClose, SignalBuy);
      var i :| 0 <= i < |L.evaluations| && L.evaluations[i] == bought;
      assert i < |L.evaluations| - 1;
    }
  }

  lemma ClaimLastSlot(L: Ledger, a: SealedAction, truth: AccountTruth, now: real)
    requires LastSlotForCancel(L) && ClaimJustified(L, a, truth, now)
    ensures LastSlotForCancel(MoveAfterClaim(L, a, truth, now))
  {
    var order := MoveAfterClaim(L, a, truth, now).order;
    CountsAppend(L.order, a.kind);
    forall i | 0 <= i < |order| && order[i].CleanupSell?
      ensures CountCleanup(order[..i + 1]) < MAX_CLEANUP_ACTIONS
    {
      if i < |L.order| {
        assert order[..i + 1] == L.order[..i + 1];
      } else {
        assert order[..i + 1] == order;
      }
    }
  }

  lemma ClaimRows(L: Ledger, a: SealedAction, truth: AccountTruth, now: real)
    requires RowsTruthful(L) && FinalSealed(L) && L.session.capability.Some?
    ensures RowsTruthful(MoveAfterClaim(L, a, truth, now)) && FinalSealed(MoveAfterClaim(L, a, truth, now))
  {}

  lemma ClaimKept(L: Ledger, a: SealedAction, truth: AccountTruth, now: real)
    requires LedgerKept(L) && L.session.capability.Some? && ClaimJustified(L, a, truth, now) && CancelsTrade(a)
    ensures LedgerKept(MoveAfterClaim(L, a, truth, now))
  {
    ClaimListed(L, a, now, Some(truth.baseTotal), Some(truth.quoteTotal));
    ClaimCounted(L, a, now, Some(truth.baseTotal), Some(truth.quoteTotal));
    ClaimTargets(L, a, truth, now);
    ClaimSingle(L, a, truth, now);
    ClaimBars(L, a, truth, now);
    ClaimLastSlot(L, a, truth, now);
    ClaimRows(L, a, truth, now);
  }

  lemma AbsenceKept(L: Ledger, k: Kind, truth: AccountTruth, query: OrderQuery, now: real)
    requires k in L.rows && RowsTruthful(L)
    requires AbsenceJustified(L.rows[k], k, truth) && QueryProvesAbsence(query, k, truth, now)
    ensures var row := AbsenceRow(L.rows[k], truth.observed, ProofFrom(k, truth, query));
            AbsenceTruthful(row, k) && MarkerTruthful(row)
  {
    var row := AbsenceRow(L.rows[k], truth.observed, ProofFrom(k, truth, query));
    assert Absent(ProofFrom(k, truth, query), k);
    assert BalancesHeld(row, ProofFrom(k, truth, query));
    if L.rows[k].absenceCount == 0 {
      assert row.absenceFirst == truth.observed;
    }
  }

  lemma SettledKept(L: Ledger, k: Kind, state: ActionState, now: real)
    requires LedgerKept(L) && k in L.rows
    requires (state.ProvenNotAccepted? && L.rows[k].state.NotSent?) || (state.Reconciled? && L.rows[k].state.Reconcilable())
    ensures LedgerKept(WithTransition(L, k, state, now))
  {
    RowChangeKept(L, k, L.rows[k].(state := state, updated := now));
  }

  lemma CommitKept(L: Ledger)
    requires LedgerKept(L) && CommitAllowed(L)
    ensures LedgerKept(L.(session := L.session.(state := Finalized)))
  {}

  /** Every ledger move of a service call keeps every ledger invariant. */
  lemma MoveKept(L: Ledger, m: Move, truth: AccountTruth, now: real)
    requires LedgerKept(L) && MoveLegal(L, m, truth, now)
    requires m.Claim? ==> CancelsTrade(m.action)
    ensures LedgerKept(MoveAfter(L, m, truth, now))
  {
    match m
    case Recover => RestateKept(L, CleanupOnly, true);
    case ProveNotSent(k) => SettledKept(L, k, ProvenNotAccepted, now);
    case Reconcile(k) => SettledKept(L, k, Reconciled, now);
    case Restate(state) => RestateKept(L, state, false);
    case Evaluate(e) => EvaluateKept(L, e);
    case Claim(a) => ClaimKept(L, a, truth, now);
    case ObserveAbsence(k, query) =>
      AbsenceKept(L, k, truth, query, now);
      RowChangeKept(L, k, AbsenceRow(L.rows[k], truth.observed, ProofFrom(k, truth, query)));
    case Seal(evidence, prepareOnly) => SealKept(L, if prepareOnly then FinalPrepared else Finalized, evidence);
    case CommitFinal => CommitKept(L);
    case Abort(evidence) => SealKept(L, Failed, evidence);
  }

  // ---- Bookkeeping needs no exchange assumption ------------------------------------------------------

  lemma MoveBookkeeping(L: Ledger, m: Move, truth: AccountTruth, now: real)
    requires Bookkeeping(L) && MoveLegal(L, m, truth, now)
    ensures Bookkeeping(MoveAfter(L, m, truth, now))
  {
    match m
    case ProveNotSent(k) => RowBookkeeping(L, k, L.rows[k].(state := ProvenNotAccepted, updated := now));
    case Reconcile(k) => RowBookkeeping(L, k, L.rows[k].(state := Reconciled, updated := now));
    case ObserveAbsence(k, query) => RowBookkeeping(L, k, AbsenceRow(L.rows[k], truth.observed, ProofFrom(k, truth, query)));
    case Claim(a) =>
      ClaimListed(L, a, now, Some(truth.baseTotal), Some(truth.quoteTotal));
      ClaimCounted(L, a, now, Some(truth.baseTotal), Some(truth.quoteTotal));
    case _ =>
  }

  lemma {:induction false} MovesBookkeeping(L: Ledger, ms: seq<Move>, truth: AccountTruth, now: real, M: Ledger)
    requires Bookkeeping(L) && Moves(L, ms, truth, now, M)
    ensures Bookkeeping(M)
    decreases |ms|
  {
    if ms != [] {
      MoveBookkeeping(L, ms[0], truth, now);
      MovesBookkeeping(MoveAfter(L, ms[0], truth, now), ms[1..], truth, now, M);
    }
  }
}
