/** What every reachable state of the order protocol keeps, one predicate per concern. */
module ProtocolInvariant {
  import opened FunctionalVocabulary
  import opened OwnerMetrics
  import opened DurableLedger
  import opened ExchangeModel
  import opened OrderProtocol

  // ---- Ledger alone ---------------------------------------------------------------------------------

  ghost predicate OrderListsRows(L: Ledger) {
    Listed(L) && (forall k :: k in L.rows ==> L.rows[k].action.kind == k)
  }

  /** Session flags and counters equal the rows; cleanup generations are exactly 1..n and 1..m. */
  ghost predicate CountersExact(L: Ledger) {
    && (L.session.buyClaimed <==> Buy in L.rows)
    && (L.session.sellClaimed <==> Sell in L.rows)
    && (forall g: nat :: CleanupSell(g) in L.rows <==> 1 <= g <= L.session.cleanupSellClaimed)
    && (forall g: nat :: Cancel(g) in L.rows <==> 1 <= g <= CountCancels(L.order))
    && CountCleanup(L.order) == L.session.cleanupSellClaimed + CountCancels(L.order)
    && CountCleanup(L.order) <= MAX_CLEANUP_ACTIONS
  }

  ghost predicate Bookkeeping(L: Ledger) { OrderListsRows(L) && CountersExact(L) }

  ghost predicate CancelTargets(L: Ledger) {
    && (forall k :: k in L.rows && k.Cancel? ==>
          L.rows[k].action.target.Some? && L.rows[k].action.target.value.Trade())
    && (forall k, k' | k in L.rows && k' in L.rows && k.Cancel? && k'.Cancel? ::
          L.rows[k].action.target == L.rows[k'].action.target ==> k == k')
  }

  /** At most one BUY/SELL claim and at most one CANCEL claim are not terminal. */
  ghost predicate SingleInFlight(L: Ledger) {
    forall k, k' | k in L.rows && k' in L.rows && !L.rows[k].state.Terminal() && !L.rows[k'].state.Terminal() ::
      k.Trade() == k'.Trade() ==> k == k'
  }

  ghost predicate FinalSealed(L: Ledger) {
    && (L.session.capability == None <==> L.session.state.Final())
    && (L.session.evidence.Some? <==> L.session.state.Final())
    && (L.session.state.Final() ==> AllTerminal(L))
  }

  ghost predicate Increasing(evaluations: seq<Evaluation>) {
    forall i, j :: 0 <= i < j < |evaluations| ==> evaluations[i].barClose < evaluations[j].barClose
  }

  ghost predicate Bars(L: Ledger) {
    && Increasing(L.evaluations)
    && (L.evaluations != [] ==> L.evaluations[|L.evaluations| - 1].barClose == L.session.lastBarClose)
    && (Buy in L.rows ==> Evaluation(L.rows[Buy].action.barClose, SignalBuy) in L.evaluations)
    && (Sell in L.rows ==>
          && Buy in L.rows
          && L.rows[Buy].action.barClose < L.rows[Sell].action.barClose
          && Evaluation(L.rows[Sell].action.barClose, SignalSell) in L.evaluations)
  }

  /** Both observations of a chain, oldest first. */
  ghost predicate TwoObservations(row: ActionRow, k: Kind) {
    match row.absenceProof
    case Rolled(Rolled(NoProof, first), second) =>
      && first.kind == second.kind == k
      && row.absenceFirst == (if first.observed != 0.0 then first.observed else second.observed)
      && row.absenceLast == second.observed
      && second.observed - first.observed >= 5.0
      && HorizonPassed(row, first) && BalancesHeld(row, first) && BalancesHeld(row, second)
      && Absent(first, k) && Absent(second, k)
    case _ => false
  }

  ghost predicate OneObservation(row: ActionRow, k: Kind) {
    match row.absenceProof
    case Rolled(NoProof, first) =>
      && first.kind == k && first.observed == row.absenceLast == row.absenceFirst
      && HorizonPassed(row, first) && BalancesHeld(row, first) && Absent(first, k)
    case _ => false
  }

  /**
    The first look came at least the visibility horizon after the last durable change of the claim,
    which is not before its POST marker.
  */
  ghost predicate HorizonPassed(row: ActionRow, first: AbsenceProof) {
    && row.postMarker.Some? && row.postMarker.value <= row.absenceFrom
    && first.observed - row.absenceFrom >= 60.0
  }

  ghost predicate BalancesHeld(row: ActionRow, proof: AbsenceProof) {
    row.preBase == Some(proof.baseTotal) && row.preQuote == Some(proof.quoteTotal)
  }

  ghost predicate Absent(proof: AbsenceProof, k: Kind) {
    && (forall r :: r in proof.open + proof.closed ==> r.client != Owned(k))
    && (forall f :: f in proof.fills ==> f.client != Owned(k))
    && SaysNotFound(proof.query, k)
    && -15.0 <= proof.query.observed - proof.observed <= 15.0
  }

  ghost predicate AbsenceTruthful(row: ActionRow, k: Kind) {
    && (row.state.AmbiguousProvenNotAccepted? ==> row.absenceCount == 2 && TwoObservations(row, k))
    && (row.state.Ambiguous() && row.absenceCount > 0 ==> row.absenceCount == 1 && OneObservation(row, k))
    && (row.state.Claimed? || row.state.Submitting? ==> row.absenceCount == 0)
    && (row.absenceCount == 0 ==> row.absenceProof == NoProof && row.absenceFirst == 0.0)
  }

  /** The marker is unset before the transport and set once it may have been entered. */
  ghost predicate MarkerTruthful(row: ActionRow) {
    && (row.state.Claimed? || row.state.Submitting? || row.state.NotSent? || row.state.ProvenNotAccepted? ==>
          row.postMarker == None)
    && (row.state.Ambiguous() || row.state.Acknowledged? || row.state.AmbiguousProvenNotAccepted? ==>
          row.postMarker.Some?)
    && (row.state.Ambiguous() && row.absenceCount == 0 ==> row.postMarker.value <= row.updated)
  }

  ghost predicate RowsTruthful(L: Ledger) {
    forall k :: k in L.rows ==> AbsenceTruthful(L.rows[k], k) && MarkerTruthful(L.rows[k])
  }

  ghost predicate CapsHeld(L: Ledger) { Buy in L.rows ==> L.rows[Buy].action.quoteOrderQty <= MAX_ORDER_NOTIONAL }

  ghost predicate Uncanceled(L: Ledger, k: Kind) {
    && k in L.rows && k.Trade() && !L.rows[k].state.Terminal()
    && !TargetCanceled(L.rows, Some(k))
  }

  /** No cleanup action is listed after `k`. */
  ghost predicate NothingCleanedSince(order: seq<Kind>, k: Kind) {
    forall i, j :: 0 <= i < j < |order| && order[i] == k ==> !order[j].ForCleanup()
  }

  /** While a trade is unfinished and not canceled, no cleanup slot is taken: it finds what it was claimed with. */
  ghost predicate SlotsUntouched(L: Ledger) {
    forall k :: Uncanceled(L, k) ==> NothingCleanedSince(L.order, k)
  }

  /** The twelfth cleanup slot never goes to a SELL. */
  ghost predicate LastSlotForCancel(L: Ledger) {
    forall i :: 0 <= i < |L.order| && L.order[i].CleanupSell? ==>
      CountCleanup(L.order[..i + 1]) < MAX_CLEANUP_ACTIONS
  }

  // ---- Ledger and exchange ------------------------------------------------------------------------

  /** The request can no longer become an order: it is not one, and its horizon has passed. */
  ghost predicate Gone(s: System, k: Kind) {
    k !in s.exchange.orders && (k in s.exchange.inbox ==> s.exchange.inbox[k].visibleBy <= s.now)
  }

  ghost predicate HorizonCovered(s: System, k: Kind)
    requires k in s.ledger.rows
  {
    var row := s.ledger.rows[k];
    && row.updated <= s.now
    && (k in s.exchange.inbox ==> s.exchange.inbox[k].visibleBy <= row.updated + NONACCEPTANCE_MIN_AGE)
    && (k in s.exchange.orders ==> s.exchange.orders[k].visibleBy <= row.updated + NONACCEPTANCE_MIN_AGE)
    && (row.absenceCount > 0 ==> Gone(s, k))
  }

  /** What a claim's durable state says about the exchange. */
  ghost predicate StateTruthful(s: System, k: Kind)
    requires k in s.ledger.rows
  {
    match s.ledger.rows[k].state
    case Claimed => s.sends[k] == 0
    case Submitting => s.sends[k] == 0
    case NotSent => s.sends[k] == 0
    case ProvenNotAccepted => s.sends[k] == 0
    case PostMayHaveCrossed => HorizonCovered(s, k)
    case ReconciliationRequired => HorizonCovered(s, k)
    case Acknowledged => s.sends[k] == 1
    case Reconciled => k.Trade() ==> k in s.seen.orders && s.seen.orders[k].status.Terminal()
    case AmbiguousProvenNotAccepted => Gone(s, k)
  }

  ghost predicate KindTruthful(s: System, k: Kind) {
    && s.sends[k] <= 1
    && (s.sends[k] == 1 ==> k in s.ledger.rows && s.ledger.rows[k].postMarker.Some?)
    && (k in s.exchange.orders ==>
          && s.sends[k] == 1 && k in s.ledger.rows && k !in s.exchange.inbox
          && s.exchange.orders[k].action == s.ledger.rows[k].action)
    && (k in s.exchange.inbox ==>
          && s.sends[k] == 1 && k in s.ledger.rows
          && s.exchange.inbox[k].action == s.ledger.rows[k].action)
    && (k in s.ledger.rows ==> StateTruthful(s, k))
  }

  ghost predicate PositionTruthful(s: System) {
    match s.position
    case Idle => true
    case Opened(k) => InState(s.ledger, k, Submitting)
    case Marked(k) => InState(s.ledger, k, PostMayHaveCrossed) && s.ledger.rows[k].absenceCount == 0 && s.sends[k] == 0
    case Sent(k) => InState(s.ledger, k, PostMayHaveCrossed) && s.ledger.rows[k].absenceCount == 0 && s.sends[k] == 1
    case Refused(state) => !s.ledger.session.state.Final() && (state.CleanupOnly? || state.NeedsReconciliation?)
  }

  /** Everything sold so far, and everything a live SELL may still sell, is covered by what is owned. */
  ghost predicate Solvent(s: System) {
    var owned := OwnedQuantity(s.exchange.fills);
    && owned >= 0.0
    && (forall k :: k in s.ledger.rows && k.Sells() && !s.ledger.rows[k].state.Terminal() ==>
          s.ledger.rows[k].action.quantity - Executed(s.exchange.fills, k) <= owned)
  }

  ghost predicate Histories(s: System) { Sound(s.exchange) && Sound(s.seen) && Extends(s.seen, s.exchange) }

  ghost predicate LedgerKept(L: Ledger) {
    && Bookkeeping(L) && CancelTargets(L) && SingleInFlight(L) && FinalSealed(L)
    && Bars(L) && RowsTruthful(L) && CapsHeld(L) && LastSlotForCancel(L)
  }

  ghost predicate Kept(s: System) {
    && LedgerKept(s.ledger)
    && SlotsUntouched(s.ledger)
    && Histories(s)
    && (forall k: Kind :: KindTruthful(s, k))
    && PositionTruthful(s)
    && Solvent(s)
  }
}
