/**
  What the service's tests come to, in the fields of the session, the call, the truth and the rules:
  when a context goes through, which bars are answered how, when absence may be observed, and when
  the cleanup planner gives up.  Every limit appears as the number it is.
*/
module ServiceAnswers {
  import opened FunctionalVocabulary
  import opened OwnerMetrics
  import opened SymbolFilters
  import opened DurableLedger
  import opened ExchangeModel
  import opened OrderProtocol
  import opened Reconciliation
  import opened ContinuousFunctionalService
  import opened ClaimDispatch

  // ---- The context ---------------------------------------------------------------------------------------

  /** The BTC the account holds through these fills, starting from none. */
  function Acquired(truth: AccountTruth): real { BookAll((0.0, 0.0), truth.fills).0 }

  /** What the fills were worth to an account that started from nothing, at the mark and at the fees' stated values. */
  function GainAtMark(truth: AccountTruth): real {
    Gain((0.0, 0.0), BookAll((0.0, 0.0), truth.fills), truth.markPrice) + UncountedCashFees(truth.fills)
  }

  predicate OwnFillsExact(truth: AccountTruth) { forall f :: f in truth.fills && f.client.Owned? ==> f.feeQuoteExact }

  /** Capability, permit and stream are the sealed ones; the truth is at most a second ahead and fifteen behind. */
  predicate InHand(session: SessionRow, call: Call, truth: AccountTruth, cleanupOnly: bool) {
    && session.capability == Some(call.capability) && call.permitExact && call.streamExact
    && truth.observed - 1.0 <= call.now <= truth.observed + 15.0
    && (truth.recoveryOnly ==> cleanupOnly)
  }

  /** The fills are sound, nobody else moved BTC, and no more than ten USDT were paid. */
  predicate OwnersAccount(session: SessionRow, truth: AccountTruth) {
    && AcceptableFills(truth.fills)
    && Acquired(truth) >= 0.0 && PaidForBuys(truth.fills) <= 10.0
    && (if truth.recoveryOnly then Acquired(truth) <= truth.baseTotal - session.baselineBase
        else truth.externalActivityAbsent && Acquired(truth) == truth.baseTotal - session.baselineBase)
  }

  /** The metrics in the account's own books. */
  lemma MetricsInBooks(truth: AccountTruth)
    ensures TallyFills(truth.fills).Owned() == Acquired(truth)
    ensures MetricsOf(truth).buyQuote == PaidForBuys(truth.fills)
    ensures MetricsOf(truth).feesExact <==> truth.feeValuationComplete && OwnFillsExact(truth)
    ensures MetricsOf(truth).ownerLoss == if GainAtMark(truth) < 0.0 then -GainAtMark(truth) else 0.0
  {
    OwnedIsTheChange((0.0, 0.0), truth);
    BuyQuoteIsPaid(truth.fills);
    FeesAreExact(truth);
    LossIsWhatWasLost((0.0, 0.0), truth);
  }

  /** A context goes through exactly like this. */
  lemma ContextMeans(session: SessionRow, call: Call, truth: AccountTruth, cleanupOnly: bool)
    ensures ContextHolds(session, call, truth, cleanupOnly) <==>
              && InHand(session, call, truth, cleanupOnly) && OwnersAccount(session, truth)
              && (cleanupOnly || (truth.feeValuationComplete && OwnFillsExact(truth) && GainAtMark(truth) > -1.0))
  {
    MetricsInBooks(truth);
  }

  /** What is admitted for recovery besides: a truth that saw somebody else trade. */
  lemma RecoveryContextMeans(session: SessionRow, call: Call, truth: AccountTruth)
    ensures RecoveryAdmitted(session, call, truth) <==>
              && InHand(session, call, truth, true)
              && (OwnersAccount(session, truth) || (!truth.recoveryOnly && !truth.externalActivityAbsent))
  {
    ContextMeans(session, call, truth, true);
  }

  /** An ordinary call that goes on has lost less than one USDT at the mark, whatever the account opened with. */
  lemma OrdinaryLostLessThanOne(session: SessionRow, call: Call, truth: AccountTruth, opening: (real, real))
    requires ContextHolds(session, call, truth, false)
    ensures Gain(opening, BookAll(opening, truth.fills), truth.markPrice) + UncountedCashFees(truth.fills) > -1.0
  {
    LossIsWhatWasLost(opening, truth);
  }

  /** Recovery forces cleanup once the session is over, no longer RUNNING, or a USDT is lost. */
  lemma CleanupForcedMeans(session: SessionRow, truth: AccountTruth, now: real)
    ensures CleanupForced(session, truth, now) <==>
              session.expires <= now || session.state != Running || GainAtMark(truth) <= -1.0
  {
    MetricsInBooks(truth);
  }

  // ---- Reconciliation of every claim -------------------------------------------------------------------------

  /** What becomes of a claim: its order is finished, it left no trace, or it stays as it is. */
  lemma RowAfterwards(row: ActionRow, k: Kind, truth: AccountTruth, now: real)
    ensures SettledRow(row, k, truth, false, now) ==
              if Finished(row, k, truth) then row.(state := ActionState.Reconciled, updated := now)
              else if NeverSeen(row, k, truth) then row.(state := ActionState.ProvenNotAccepted, updated := now)
              else row
  {
    VerdictsMean(row, k, truth, false);
  }

  /** Reconciliation goes through exactly when each claim is left pending, finished or never seen. */
  lemma NoStopMeans(L: Ledger, truth: AccountTruth)
    requires Listed(L)
    ensures NoStop(L, |L.order|, truth, false) <==>
              forall k :: k in L.rows ==>
                LeftPending(L.rows[k], k, truth, false) || Finished(L.rows[k], k, truth) || NeverSeen(L.rows[k], k, truth)
  {
    assert L.order[..|L.order|] == L.order;
    forall k | k in L.rows
      ensures VerdictOn(L.rows[k], k, truth, false).Stop? <==>
                !LeftPending(L.rows[k], k, truth, false) && !Finished(L.rows[k], k, truth) && !NeverSeen(L.rows[k], k, truth)
    {
      VerdictsMean(L.rows[k], k, truth, false);
    }
  }

  /** Every claim is RECONCILED afterwards exactly when each is already or its order is finished and accounted for. */
  lemma SettlesAllMeans(L: Ledger, truth: AccountTruth, now: real)
    ensures SettlesAll(L, truth, now) <==>
              forall k :: k in L.rows ==> L.rows[k].state == ActionState.Reconciled || Finished(L.rows[k], k, truth)
  {
    forall k | k in L.rows
      ensures SettledRow(L.rows[k], k, truth, false, now).state.Reconciled? <==>
                L.rows[k].state == ActionState.Reconciled || Finished(L.rows[k], k, truth)
    {
      RowAfterwards(L.rows[k], k, truth, now);
    }
  }

  // ---- One bar -------------------------------------------------------------------------------------------

  /** The exchange-info truth parses. */
  predicate Usable(rules: SymbolRules) {
    && 0.0 < rules.stepSize && 0.0 < rules.minQuantity && rules.minQuantity <= rules.maxQuantity
    && 0.0 < rules.minNotional && rules.minNotional <= rules.maxNotional && 0.0 < rules.referencePrice
    && (rules.minNotionalApplies ==> rules.minNotional <= 10.0)
  }

  /** A BUY of this much is within the market filters and ten USDT. */
  predicate Buyable(rules: SymbolRules, notional: real) {
    && (rules.minNotionalApplies ==> rules.minNotional <= notional)
    && (rules.maxNotionalApplies ==> notional <= rules.maxNotional)
    && notional <= 10.0
  }

  /** The whole steps of this quantity can be sold. */
  ghost predicate Sellable(rules: SymbolRules, quantity: real) {
    exists whole: nat :: StepsIn(rules, quantity, whole) && Tradable(rules, whole as real * rules.stepSize)
  }

  lemma SellableIsNormalized(rules: SymbolRules, quantity: real)
    requires rules.Parsed()
    ensures rules.NormalizeFlatten(quantity).Done? <==> Sellable(rules, quantity)
  {
    var flat := rules.NormalizeFlatten(quantity);
    if flat.Done? { NormalizedExactly(rules, quantity, flat.value); }
    forall whole: nat | StepsIn(rules, quantity, whole) && Tradable(rules, whole as real * rules.stepSize) ensures flat.Done? {
      NormalizedExactly(rules, quantity, whole as real * rules.stepSize);
    }
  }

  /** The bar is the next one of a RUNNING session whose claims are settled. */
  predicate NextBar(settled: bool, session: SessionRow, bar: Bar, now: real) {
    settled && session.state == Running && now < session.expires && session.lastBarClose < bar.close
  }

  /** A signal that may be acted on. */
  predicate Actionable(settled: bool, session: SessionRow, bar: Bar, now: real, rules: SymbolRules, permissionExact: bool) {
    NextBar(settled, session, bar, now) && Usable(rules) && permissionExact
  }

  /** What every answer to a bar presupposes; anything else raises. */
  ghost predicate AnswersFit(
    answer: Option<Observation>, settled: bool, session: SessionRow, truth: AccountTruth, rules: SymbolRules, permissionExact: bool,
    bar: Bar, notional: real, now: real)
  {
    var acts := Actionable(settled, session, bar, now, rules, permissionExact);
    && (answer == Some(ExpiredToCleanup) <==> settled && session.expires <= now)
    && (answer == Some(NaturalClaimed(Buy)) <==>
          && acts && bar.signal == SignalBuy && !session.buyClaimed && !session.sellClaimed
          && Acquired(truth) == 0.0 && truth.thirdAssetFundingAbsent
          && Buyable(rules, notional) && notional <= truth.quoteAvailable)
    && (answer == Some(NoReentry) <==> acts && bar.signal == SignalBuy && (session.buyClaimed || session.sellClaimed))
    && (answer == Some(NaturalClaimed(Sell)) <==>
          && acts && bar.signal == SignalSell && session.buyClaimed && !session.sellClaimed
          && 0.0 < Acquired(truth) && Sellable(rules, Acquired(truth)))
    && (answer == Some(SellCapReached) <==> acts && bar.signal == SignalSell && session.sellClaimed)
    && (answer == Some(Held) <==>
          || (NextBar(settled, session, bar, now) && bar.signal == SignalHold)
          || (acts && bar.signal == SignalSell && !session.sellClaimed && (Acquired(truth) <= 0.0 || !session.buyClaimed)))
    && (answer.Some? && answer.value.NaturalClaimed? ==> answer.value.kind == Buy || answer.value.kind == Sell)
  }

  /** Every answer to a bar, the ones that claim nothing included. */
  lemma BarMeans(
    settled: bool, session: SessionRow, truth: AccountTruth, rules: SymbolRules, permissionExact: bool, bar: Bar, notional: real, now: real)
    ensures BarDue(settled, session, bar, now) <==> NextBar(settled, session, bar, now)
    ensures AnswersFit(
              BarAnswer(settled, session, truth, rules, permissionExact, bar, notional, now),
              settled, session, truth, rules, permissionExact, bar, notional, now)
  {
    MetricsInBooks(truth);
    if rules.Parsed() { SellableIsNormalized(rules, Acquired(truth)); }
  }

  /** On the session's own flags: a BUY is claimed only into a ledger without BUY and SELL, a SELL only after a BUY. */
  lemma BarInRows(
    L: Ledger, settled: bool, truth: AccountTruth, rules: SymbolRules, permissionExact: bool, bar: Bar, notional: real, now: real)
    requires FlagsExact(L)
    ensures var answer := BarAnswer(settled, L.session, truth, rules, permissionExact, bar, notional, now);
            && (answer == Some(NaturalClaimed(Buy)) ==> Buy !in L.rows && Sell !in L.rows)
            && (answer == Some(NoReentry) ==> Buy in L.rows || Sell in L.rows)
            && (answer == Some(NaturalClaimed(Sell)) ==> Buy in L.rows && Sell !in L.rows)
            && (answer == Some(SellCapReached) ==> Sell in L.rows)
  {
    BarMeans(settled, L.session, truth, rules, permissionExact, bar, notional, now);
  }

  // ---- Absence -------------------------------------------------------------------------------------------

  /** The first look waits a minute after the claim's last change, a later one five seconds after the one before. */
  predicate LookIsDue(row: ActionRow, observed: real) {
    if row.absenceCount == 0 then row.updated + 60.0 <= observed else row.absenceLast + 5.0 <= observed
  }

  ghost predicate NowhereIn(truth: AccountTruth, k: Kind) {
    && (forall order :: order in truth.open || order in truth.closed ==> order.client != Owned(k))
    && (forall f :: f in truth.fills ==> f.client != Owned(k))
  }

  /** The exchange's own "order does not exist" for this client id, within fifteen seconds of the truth and of now. */
  predicate NotFoundJustNow(query: OrderQuery, k: Kind, truth: AccountTruth, now: real) {
    && query.complete && query.symbolExact && query.client == Owned(k) && query.notFound && query.errorCode == -2013
    && query.observed - 1.0 <= now <= query.observed + 15.0
    && query.observed - 15.0 <= truth.observed <= query.observed + 15.0
  }

  /** When one observation of absence is recorded. */
  lemma AbsenceMeans(row: ActionRow, k: Kind, truth: AccountTruth, query: OrderQuery, now: real)
    ensures AbsenceJustified(row, k, truth) && QueryProvesAbsence(query, k, truth, now) <==>
              && (row.state == PostMayHaveCrossed || row.state == ReconciliationRequired)
              && LookIsDue(row, truth.observed) && NowhereIn(truth, k)
              && row.preBase == Some(truth.baseTotal) && row.preQuote == Some(truth.quoteTotal)
              && NotFoundJustNow(query, k, truth, now)
  {
    assert Unseen(truth, k) <==> NowhereIn(truth, k) by {
      assert forall order :: order in truth.AllRows() <==> order in truth.open || order in truth.closed;
    }
  }

  // ---- The cleanup planner gives up -------------------------------------------------------------------------

  /** More than one order of this session is working. */
  predicate TwoWorking(truth: AccountTruth) {
    exists i, j :: 0 <= i < j < |truth.open| && truth.open[i].client.Owned? && truth.open[j].client.Owned?
  }

  predicate NoneWorking(truth: AccountTruth) { forall order :: order in truth.open ==> !order.client.Owned? }

  lemma {:induction false} CountOwned(rows: seq<OrderRow>)
    ensures OwnedOpen(rows) == [] <==> forall order :: order in rows ==> !order.client.Owned?
    ensures |OwnedOpen(rows)| > 1 <==> exists i, j :: 0 <= i < j < |rows| && rows[i].client.Owned? && rows[j].client.Owned?
  {
    if rows != [] {
      var rest, last := rows[..|rows| - 1], rows[|rows| - 1];
      assert rows == rest + [last];
      CountOwned(rest);
      if OwnedOpen(rest) != [] {
        var order := OwnedOpen(rest)[0];
        assert order in OwnedOpen(rest);
        var i :| 0 <= i < |rest| && rest[i] == order;
      }
    }
  }

  /** Enough for an order, but not for one the market takes. */
  predicate AboveFilters(rules: SymbolRules, orderable: real) {
    && rules.minQuantity <= orderable && (rules.minNotionalApplies ==> rules.minNotional <= orderable * rules.referencePrice)
    && !Tradable(rules, orderable)
  }

  /** A residue whose whole steps are neither dust nor within the largest order the market takes. */
  ghost predicate TooLarge(rules: SymbolRules, quantity: real) {
    exists whole: nat :: StepsIn(rules, quantity, whole) && AboveFilters(rules, whole as real * rules.stepSize)
  }

  /** The flatten tests on the quantity they cut the residue down to. */
  lemma ResidueTests(rules: SymbolRules, owned: real, mark: real, orderable: real)
    requires rules.Parsed() && owned > 0.0 && mark > 0.0 && orderable == rules.FloorQuantity(owned)
    ensures rules.UnorderableResidual(owned, mark) == Done(
              orderable < rules.minQuantity || (rules.minNotionalApplies && orderable * rules.referencePrice < rules.minNotional))
    ensures rules.NormalizeFlatten(owned).Done? <==> Tradable(rules, orderable)
  {}

  lemma OnlySteps(rules: SymbolRules, owned: real, whole: nat)
    requires rules.Parsed() && StepsIn(rules, owned, whole)
    ensures forall n: nat :: StepsIn(rules, owned, n) <==> n == whole
  {
    forall n: nat | StepsIn(rules, owned, n) ensures n == whole {
      SameSteps(n, whole, rules.stepSize, owned);
      SameSteps(whole, n, rules.stepSize, owned);
    }
  }

  lemma RefusedMeans(owned: real, mark: real, rules: SymbolRules, permissionExact: bool)
    requires owned > 0.0
    ensures FlattenRefused(owned, mark, rules, permissionExact) <==>
              !Usable(rules) || !permissionExact || mark <= 0.0 || TooLarge(rules, owned)
  {
    if rules.Parsed() {
      var whole := StepsExist(rules, owned);
      OnlySteps(rules, owned, whole);
      assert TooLarge(rules, owned) <==> AboveFilters(rules, rules.FloorQuantity(owned));
      if mark > 0.0 { ResidueTests(rules, owned, mark, rules.FloorQuantity(owned)); }
    }
  }

  /** The planner raises at two working orders, and at a residue it may not or cannot sell while ten or fewer slots are used. */
  lemma PlanRefusedMeans(L: Ledger, truth: AccountTruth, rules: SymbolRules, permissionExact: bool)
    ensures PlanRefused(L, truth, rules, permissionExact) <==>
              || TwoWorking(truth)
              || (&& NoneWorking(truth) && Acquired(truth) > 0.0 && CountCleanup(L.order) <= 10
                  && (!Usable(rules) || !permissionExact || truth.markPrice <= 0.0 || TooLarge(rules, Acquired(truth))))
  {
    CountOwned(truth.open);
    MetricsInBooks(truth);
    if Acquired(truth) > 0.0 { RefusedMeans(Acquired(truth), truth.markPrice, rules, permissionExact); }
  }

  /** A claim is pending unsafely when it is not terminal and no working order carries its id. */
  lemma PendingMeans(L: Ledger, truth: AccountTruth)
    ensures HasUnsafePending(L, truth) <==>
              exists k: Kind :: k in L.rows
                && L.rows[k].state !in {ActionState.Reconciled, ActionState.ProvenNotAccepted, ActionState.AmbiguousProvenNotAccepted}
                && forall order :: order in truth.open ==> order.client != Owned(k)
  {
    forall k: Kind | k in L.rows
      ensures !ListedOpen(truth, k) <==> forall order :: order in truth.open ==> order.client != Owned(k)
    {}
  }

  // ---- Dispatch ------------------------------------------------------------------------------------------

  /** The sealed action still is what the fresh truth and the rules ask for. */
  ghost predicate StillAsked(a: SealedAction, truth: AccountTruth, rules: SymbolRules, call: Call, expires: real) {
    match a.kind
    case Buy => call.now < expires && Usable(rules) && call.permissionExact && Buyable(rules, a.quoteOrderQty)
    case Cancel(_) =>
      a.target.Some? && exists order :: ListedOnce(truth.open, Owned(a.target.value), Some(a.targetOrderId), order)
    case _ =>
      && Usable(rules) && call.permissionExact && a.quantity <= truth.baseAvailable
      && exists whole: nat :: StepsIn(rules, Acquired(truth), whole) && a.quantity == whole as real * rules.stepSize
                              && Tradable(rules, a.quantity)
  }

  lemma OneListed(rows: seq<OrderRow>, client: ClientId, id: Option<nat>)
    ensures |RowsOf(rows, client, id)| == 1 <==> exists order :: ListedOnce(rows, client, id, order)
  {
    MatchesMean(rows, client, id);
    if |RowsOf(rows, client, id)| == 1 { assert ListedOnce(rows, client, id, RowsOf(rows, client, id)[0]); }
  }

  lemma SaleExactly(a: SealedAction, truth: AccountTruth, rules: SymbolRules, call: Call, expires: real)
    requires a.kind.Sells()
    ensures StillExact(a, truth, rules, call, expires) <==> StillAsked(a, truth, rules, call, expires)
  {
    MetricsInBooks(truth);
    if rules.Parsed() { NormalizedExactly(rules, Acquired(truth), a.quantity); }
  }

  /** What crosses into SUBMITTING, and nothing else does. */
  lemma DispatchableMeans(session: SessionRow, call: Call, truth: AccountTruth, rules: SymbolRules, a: SealedAction, authority: bool)
    ensures Dispatchable(session, call, truth, rules, a, authority) <==>
              && authority && ContextHolds(session, call, truth, a.kind.Cancel? || a.kind.CleanupSell?)
              && StillAsked(a, truth, rules, call, session.expires)
  {
    if a.kind.Sells() {
      SaleExactly(a, truth, rules, call, session.expires);
    } else if a.kind.Cancel? && a.target.Some? {
      OneListed(truth.open, Owned(a.target.value), Some(a.targetOrderId));
    }
  }
}
