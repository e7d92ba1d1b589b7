/**
  Runs that end where the guarantees stop: each is built step by step from a fresh session, every
  step taken with the truth the exchange would show at that moment.
*/
module ProtocolWitnesses {
  import opened FunctionalVocabulary
  import opened OwnerMetrics
  import opened SymbolFilters
  import opened DurableLedger
  import opened ExchangeModel
  import opened OrderProtocol
  import opened ProtocolInvariant
  import opened LedgerPreservation
  import opened SystemPreservation
  import opened ProtocolSafety
  import opened ServiceRuns
  import opened NonacceptanceLimits
  import opened ContinuousFunctionalService
  import opened RecoveryGuarantees

  const EPOCH := 1000.0
  const LOT := 0.0002
  const MARK_PRICE := 50000.0
  const OPENING_QUOTE := 100.0

  // ---- The truth of a state --------------------------------------------------------------------------

  function RowShown(k: Kind, ex: Exchange): OrderRow
    requires k in ex.orders
  {
    var order := ex.orders[k];
    OrderRow(
      Owned(k), order.orderId, k.OrderSide(), true, order.status,
      order.action.quantity, order.action.quoteOrderQty, Executed(ex.fills, k), ExecutedQuote(ex.fills, k))
  }

  /** The listed kinds that are working orders, or the ones that are finished orders. */
  function RowsShown(kinds: seq<Kind>, ex: Exchange, working: bool): (rows: seq<OrderRow>)
    ensures forall row :: row in rows <==>
              && row.client.Owned? && row.client.kind in kinds && row.client.kind in ex.orders
              && ex.orders[row.client.kind].status.Terminal() != working && row == RowShown(row.client.kind, ex)
  {
    if kinds == [] then [] else
      var last := kinds[|kinds| - 1];
      var rest := RowsShown(kinds[..|kinds| - 1], ex, working);
      assert kinds == kinds[..|kinds| - 1] + [last];
      if last in ex.orders && ex.orders[last].status.Terminal() != working then rest + [RowShown(last, ex)] else rest
  }

  /** The account truth read at this very moment. */
  function Snapshot(s: System): AccountTruth {
    var t := TallyFills(s.exchange.fills);
    var base := s.ledger.session.baselineBase + t.Owned();
    var quote := OPENING_QUOTE - t.buyQuote + t.sellQuote - t.cashFees;
    AccountTruth(
      s.now, base, quote, base, quote, MARK_PRICE,
      RowsShown(s.ledger.order, s.exchange, true), RowsShown(s.ledger.order, s.exchange, false), s.exchange.fills,
      true, true, true, false)
  }

  lemma {:induction false} AllOwned(fills: seq<Fill>)
    requires forall i :: 0 <= i < |fills| ==> fills[i].client.Owned?
    ensures OwnedFills(fills) == fills
  {
    if fills != [] {
      AllOwned(fills[..|fills| - 1]);
      assert fills == fills[..|fills| - 1] + [fills[|fills| - 1]];
    }
  }

  lemma SnapshotShows(s: System, k: Kind)
    requires Kept(s) && k in s.exchange.orders
    ensures if s.exchange.orders[k].status.Terminal() then RowShown(k, s.exchange) in Snapshot(s).closed
            else RowShown(k, s.exchange) in Snapshot(s).open
    ensures RowShown(k, s.exchange) in Snapshot(s).AllRows()
  {
    assert KindTruthful(s, k);
    assert RowShown(k, s.exchange).client.kind == k;
  }

  lemma SnapshotTrue(s: System, truth: AccountTruth)
    requires Kept(s)
    requires truth.open == Snapshot(s).open && truth.closed == Snapshot(s).closed && truth.fills == s.exchange.fills
    ensures TruthOf(truth, s.exchange)
  {
    AllOwned(s.exchange.fills);
    SnapshotAgrees(s, truth);
    SnapshotComplete(s, truth);
  }

  lemma SnapshotAgrees(s: System, truth: AccountTruth)
    requires truth.open == Snapshot(s).open && truth.closed == Snapshot(s).closed
    ensures forall row :: row in truth.AllRows() && row.client.Owned? ==>
              row.client.kind in s.exchange.orders && RowAgrees(row, s.exchange.orders[row.client.kind])
    ensures forall row :: row in truth.open && row.client.Owned? ==> !row.status.Terminal()
  {}

  lemma SnapshotComplete(s: System, truth: AccountTruth)
    requires Kept(s)
    requires truth.open == Snapshot(s).open && truth.closed == Snapshot(s).closed
    ensures forall k :: k in s.exchange.orders ==> exists row :: row in truth.AllRows() && row.client == Owned(k)
  {
    forall k | k in s.exchange.orders ensures exists row :: row in truth.AllRows() && row.client == Owned(k) {
      SnapshotShows(s, k);
    }
  }

  // ---- Steps -----------------------------------------------------------------------------------------

  ghost predicate Reachable(s: System) {
    exists start, steps :: Initial(start) && Run(start, steps) && RunEnd(start, steps) == s
  }

  lemma ReachableKept(s: System)
    requires Reachable(s)
    ensures Kept(s) && Fresh(s, Snapshot(s), s.exchange)
  {
    var start, steps :| Initial(start) && Run(start, steps) && RunEnd(start, steps) == s;
    Reached(start, steps);
    SnapshotTrue(s, Snapshot(s));
    ExtendsReflexive(s.exchange);
  }

  lemma Onward(s: System, step: Step)
    requires Reachable(s) && StepLegal(s, step)
    ensures Reachable(StepAfter(s, step))
  {
    var start, steps :| Initial(start) && Run(start, steps) && RunEnd(start, steps) == s;
    RunAppend(start, steps, step);
  }

  lemma Serve(s: System, m: Move) returns (t: System)
    requires Reachable(s) && s.position.Idle? && MoveLegal(s.ledger, m, Snapshot(s), s.now)
    ensures Reachable(t) && t == s.(ledger := MoveAfter(s.ledger, m, Snapshot(s), s.now), seen := s.exchange)
  {
    ReachableKept(s);
    var step := Service(m, Snapshot(s), s.exchange);
    Onward(s, step);
    t := StepAfter(s, step);
  }

  lemma Act(s: System, m: DispatchMove) returns (t: System)
    requires Reachable(s) && DispatchLegal(s, m, Snapshot(s)) && Timely(s, m)
    ensures Reachable(t) && t == DispatchAfter(s, m, Snapshot(s)).(seen := s.exchange)
  {
    ReachableKept(s);
    var step := Dispatch(m, Snapshot(s), s.exchange);
    Onward(s, step);
    t := StepAfter(s, step);
  }

  lemma Respond(s: System, m: BrokerMove) returns (t: System)
    requires Reachable(s) && BrokerLegal(s.exchange, m, s.now)
    ensures Reachable(t) && t == s.(exchange := BrokerAfter(s.exchange, m, s.now))
  {
    Onward(s, Broker(m));
    t := StepAfter(s, Broker(m));
  }

  // ---- One action ------------------------------------------------------------------------------------

  ghost predicate Claimable(s: System, a: SealedAction) {
    && Reachable(s) && s.position.Idle? && s.ledger.session.capability.Some?
    && ClaimJustified(s.ledger, a, Snapshot(s), s.now)
  }

  /** The ledger once `a` is claimed and its row has come to `state`. */
  function ClaimedAt(s: System, a: SealedAction, state: ActionState, marker: Option<real>): Ledger {
    var base, quote := Some(Snapshot(s).baseTotal), Some(Snapshot(s).quoteTotal);
    WithClaim(s.ledger, a, s.now, base, quote).(
      rows := s.ledger.rows[a.kind := NewRow(a, s.now, base, quote).(state := state, postMarker := marker)])
  }

  /** Nothing has moved since the claim was made. */
  predicate SealedBalances(s: System, k: Kind)
    requires k in s.ledger.rows
  {
    s.ledger.rows[k].preBase == Some(Snapshot(s).baseTotal) && s.ledger.rows[k].preQuote == Some(Snapshot(s).quoteTotal)
  }

  lemma BalancesSealed(s: System, a: SealedAction, state: ActionState, marker: Option<real>, t: System)
    requires t.ledger == ClaimedAt(s, a, state, marker) && t.exchange.fills == s.exchange.fills
    ensures SealedBalances(t, a.kind)
  {}

  /** The target a cancel was claimed for is still listed right after the claim. */
  lemma StillWorkingTarget(s: System, claimed: System, a: SealedAction)
    requires a.kind.Cancel? && ClaimJustified(s.ledger, a, Snapshot(s), s.now)
    requires claimed.exchange == s.exchange && claimed.ledger.order == s.ledger.order + [a.kind]
    ensures a.target.Some? && SeenWorking(Snapshot(claimed), a.target.value, a.targetOrderId)
  {
    var row :| row in Snapshot(s).open && row.client == Owned(a.target.value) && row.orderId == a.targetOrderId;
    assert row in Snapshot(claimed).open;
  }

  lemma CheckedAfterClaim(s: System, claimed: System, a: SealedAction)
    requires ClaimJustified(s.ledger, a, Snapshot(s), s.now) && claimed.ledger.session.capability.Some?
    requires claimed.exchange == s.exchange && claimed.ledger.order == s.ledger.order + [a.kind]
    requires claimed.ledger.session.expires == s.ledger.session.expires
    ensures DispatchChecked(claimed.ledger, a, Snapshot(claimed), s.now)
  {
    if a.kind.Cancel? { StillWorkingTarget(s, claimed, a); }
  }

  lemma ClaimAction(s: System, a: SealedAction) returns (t: System)
    requires Claimable(s, a)
    ensures Reachable(t) && t == s.(ledger := ClaimedAt(s, a, Claimed, None), seen := s.exchange)
    ensures DispatchChecked(t.ledger, a, Snapshot(t), t.now)
  {
    t := Serve(s, Move.Claim(a));
    CheckedAfterClaim(s, t, a);
  }

  lemma OpenedLedger(s: System, a: SealedAction)
    ensures WithTransition(ClaimedAt(s, a, Claimed, None), a.kind, Submitting, s.now) == ClaimedAt(s, a, Submitting, None)
  {
    assert WithTransition(ClaimedAt(s, a, Claimed, None), a.kind, Submitting, s.now).rows == ClaimedAt(s, a, Submitting, None).rows;
  }

  lemma OpenAction(s: System, a: SealedAction) returns (t: System)
    requires Claimable(s, a)
    ensures Reachable(t)
    ensures t == s.(ledger := ClaimedAt(s, a, Submitting, None), seen := s.exchange, position := Opened(a.kind))
  {
    var claimed := ClaimAction(s, a);
    t := Act(claimed, Open(a.kind));
    OpenedLedger(s, a);
  }

  /** Claimed, opened and marked: everything before the transport. */
  lemma MarkAction(s: System, a: SealedAction) returns (t: System)
    requires Claimable(s, a)
    ensures Reachable(t)
    ensures t == s.(ledger := ClaimedAt(s, a, PostMayHaveCrossed, Some(s.now)), seen := s.exchange, position := Marked(a.kind))
  {
    var submitting := OpenAction(s, a);
    t := Act(submitting, Mark(a.kind));
    assert t.ledger.rows == ClaimedAt(s, a, PostMayHaveCrossed, Some(s.now)).rows;
  }

  lemma SendAction(s: System, a: SealedAction) returns (t: System)
    requires Claimable(s, a)
    ensures Reachable(t)
    ensures t.ledger == ClaimedAt(s, a, PostMayHaveCrossed, Some(s.now)) && t.position == Sent(a.kind) && t.now == s.now
    ensures t.exchange == s.exchange.(inbox := s.exchange.inbox[a.kind := Request(a, s.now + NONACCEPTANCE_MIN_AGE)])
  {
    var marked := MarkAction(s, a);
    t := Act(marked, Send(a.kind, s.now + NONACCEPTANCE_MIN_AGE));
  }

  lemma AcceptOrder(s: System, a: SealedAction) returns (t: System)
    requires Claimable(s, a) && a.kind.Trade() && a.quantity >= 0.0 && a.quoteOrderQty >= 0.0
    ensures Reachable(t)
    ensures t.ledger == ClaimedAt(s, a, PostMayHaveCrossed, Some(s.now)) && t.position == Sent(a.kind) && t.now == s.now
    ensures t.exchange.fills == s.exchange.fills
    ensures t.exchange.orders == s.exchange.orders[a.kind := Order(a, |s.ledger.order|, New, s.now + NONACCEPTANCE_MIN_AGE)]
  {
    var sent := SendAction(s, a);
    NotYetAccepted(s, a);
    t := Respond(sent, Accept(a.kind, |s.ledger.order|));
  }

  lemma AcknowledgeAction(s: System, sent: System, a: SealedAction) returns (t: System)
    requires Reachable(sent) && sent.position == Sent(a.kind) && sent.now == s.now
    requires sent.ledger == ClaimedAt(s, a, PostMayHaveCrossed, Some(s.now))
    ensures Reachable(t) && t.position.Idle? && t.now == s.now
    ensures t.ledger == ClaimedAt(s, a, Acknowledged, Some(s.now)) && t.exchange == sent.exchange
  {
    t := Act(sent, Acknowledge(a.kind));
    assert t.ledger.rows == ClaimedAt(s, a, Acknowledged, Some(s.now)).rows;
  }

  lemma NotYetAccepted(s: System, a: SealedAction)
    requires Claimable(s, a)
    ensures a.kind !in s.exchange.orders
  {
    ReachableKept(s);
    assert KindTruthful(s, a.kind);
  }

  /** A BUY or SELL that is acknowledged and working. */
  lemma PlaceOrder(s: System, a: SealedAction) returns (t: System)
    requires Claimable(s, a) && a.kind.Trade() && a.quantity >= 0.0 && a.quoteOrderQty >= 0.0
    ensures Reachable(t) && t.position.Idle? && t.now == s.now
    ensures t.ledger == ClaimedAt(s, a, Acknowledged, Some(s.now))
    ensures t.exchange.fills == s.exchange.fills
    ensures t.exchange.orders == s.exchange.orders[a.kind := Order(a, |s.ledger.order|, New, s.now + NONACCEPTANCE_MIN_AGE)]
  {
    var accepted := AcceptOrder(s, a);
    t := AcknowledgeAction(s, accepted, a);
  }

  /** Broker truth settles an acknowledged trade whose order is finished. */
  lemma SettleTrade(s: System, k: Kind) returns (t: System)
    requires Reachable(s) && s.position.Idle? && s.ledger.session.capability.Some?
    requires k.Trade() && InState(s.ledger, k, Acknowledged) && s.ledger.rows[k].updated <= s.now
    requires k in s.exchange.orders && s.exchange.orders[k].status.Terminal()
    ensures Reachable(t) && t == s.(ledger := WithTransition(s.ledger, k, Reconciled, s.now), seen := s.exchange)
  {
    ReachableKept(s);
    SnapshotShows(s, k);
    t := Serve(s, Move.Reconcile(k));
  }

  lemma SettleCancel(s: System, k: Kind) returns (t: System)
    requires Reachable(s) && s.position.Idle? && s.ledger.session.capability.Some?
    requires k.Cancel? && InState(s.ledger, k, Acknowledged) && s.ledger.rows[k].updated <= s.now
    requires s.ledger.rows[k].action.target.Some? && s.ledger.rows[k].action.target.value in s.exchange.orders
    requires s.exchange.orders[s.ledger.rows[k].action.target.value].status.Terminal()
    ensures Reachable(t) && t == s.(ledger := WithTransition(s.ledger, k, Reconciled, s.now), seen := s.exchange)
  {
    ReachableKept(s);
    SnapshotShows(s, s.ledger.rows[k].action.target.value);
    t := Serve(s, Move.Reconcile(k));
  }

  // ---- A session that has bought its lot ---------------------------------------------------------------

  const BUY_BAR := Evaluation(940.0, SignalBuy)
  const SELL_BAR := Evaluation(970.0, SignalSell)
  const BUY_LOT := SealedAction(Buy, 0.0, MAX_ORDER_NOTIONAL, None, 0, 940.0)
  const SELL_LOT := SealedAction(Sell, LOT, 0.0, None, 0, 970.0)
  const BOUGHT := Fill(Owned(Buy), 1, BuySide, LOT, MAX_ORDER_NOTIONAL, 0.01, QuoteFee, true, 0.01)

  const FRESH_SESSION := SessionRow(
    Running, Some(1), 0.0, EPOCH, EPOCH + PERMIT_SECONDS, EPOCH + PERMIT_SECONDS, 0.0, false, false, 0, false, false, None)

  const FRESH := System(
    Ledger(FRESH_SESSION, map[], [], []), Exchange(map[], map[], {}, []), Exchange(map[], map[], {}, []), EPOCH, Idle, multiset{})

  lemma FreshReachable()
    ensures Reachable(FRESH)
  {
    assert Initial(FRESH) && Run(FRESH, []) && RunEnd(FRESH, []) == FRESH;
  }

  lemma Signal(s: System, bar: Evaluation) returns (t: System)
    requires Reachable(s) && s.position.Idle? && s.ledger.session.capability.Some? && EvaluationAllowed(s.ledger, bar)
    ensures Reachable(t) && t == s.(ledger := WithEvaluation(s.ledger, bar), seen := s.exchange)
  {
    t := Serve(s, Evaluate(bar));
  }

  /** A fresh session whose first finalized bar says BUY. */
  ghost predicate Signaled(s: System) {
    && Reachable(s) && s.position.Idle? && s.now == EPOCH
    && s.ledger.session == FRESH_SESSION.(lastBarClose := BUY_BAR.barClose)
    && s.ledger.rows == map[] && s.ledger.order == [] && s.ledger.evaluations == [BUY_BAR]
    && s.exchange.orders == map[] && s.exchange.fills == []
  }

  lemma BuySignaled() returns (s: System)
    ensures Signaled(s) && Claimable(s, BUY_LOT)
  {
    FreshReachable();
    s := Signal(FRESH, BUY_BAR);
    assert [] + [BUY_BAR] == [BUY_BAR];
    BuyJustified(s);
  }

  lemma BuyJustified(s: System)
    requires Reachable(s) && s.position.Idle? && s.ledger.session.capability.Some?
    requires s.ledger.session.state.Running? && s.now < s.ledger.session.expires
    requires !s.ledger.session.buyClaimed && !s.ledger.session.sellClaimed
    requires s.ledger.rows == map[] && s.ledger.evaluations == [BUY_BAR]
    ensures Claimable(s, BUY_LOT)
  {}

  /** The BUY has been claimed, nothing else has, and its row stands in `state`. */
  ghost predicate BuyOnly(s: System, state: ActionState) {
    && Reachable(s) && s.now == EPOCH
    && s.ledger.session == FRESH_SESSION.(lastBarClose := BUY_BAR.barClose, buyClaimed := true)
    && s.ledger.rows.Keys == {Buy} && s.ledger.order == [Buy]
    && s.ledger.rows[Buy].action == BUY_LOT && s.ledger.rows[Buy].state == state && s.ledger.rows[Buy].updated == EPOCH
  }

  lemma BuyWorking() returns (s: System)
    ensures BuyOnly(s, Acknowledged) && s.position.Idle? && s.exchange.fills == []
    ensures s.exchange.orders == map[Buy := Order(BUY_LOT, 0, New, EPOCH + NONACCEPTANCE_MIN_AGE)]
  {
    var signaled := BuySignaled();
    s := PlaceOrder(signaled, BUY_LOT);
    assert [] + [Buy] == [Buy];
  }

  /** Still RUNNING, `n` cleanup actions so far, everything settled, and the lot still owned. */
  ghost predicate Holding(s: System, n: nat) {
    && Reachable(s) && s.position.Idle? && s.now == EPOCH
    && s.ledger.session.state.Running? && s.ledger.session.capability.Some?
    && s.ledger.session.expires > EPOCH && s.ledger.session.lastBarClose == BUY_BAR.barClose
    && AllReconciled(s.ledger)
    && Buy in s.ledger.rows && Sell !in s.ledger.rows
    && CountCleanup(s.ledger.order) == n
    && (forall k :: k in s.ledger.rows && k.Cancel? ==> s.ledger.rows[k].action.target != Some(Sell))
    && (forall k :: k in s.exchange.orders ==> s.exchange.orders[k].status.Terminal())
    && s.exchange.fills == [BOUGHT]
  }

  lemma OwnsLot()
    ensures OwnedQuantity([BOUGHT]) == LOT && ExecutedQuote([BOUGHT], Buy) == MAX_ORDER_NOTIONAL
  {
    TallyAppend([], BOUGHT);
    ExecutedAppend([], BOUGHT, Buy);
    assert [] + [BOUGHT] == [BOUGHT];
  }

  lemma BuyFilled() returns (t: System)
    ensures BuyOnly(t, Acknowledged) && t.position.Idle?
    ensures t.exchange.fills == [BOUGHT]
    ensures t.exchange.orders == map[Buy := Order(BUY_LOT, 0, Filled, EPOCH + NONACCEPTANCE_MIN_AGE)]
  {
    var working := BuyWorking();
    OwnsLot();
    assert [] + [BOUGHT] == [BOUGHT];
    var executed := Respond(working, Execute(BOUGHT));
    t := Respond(executed, Restatus(Buy, Filled));
  }

  lemma LotBought() returns (t: System)
    ensures Holding(t, 0) && t.ledger.order == [Buy]
  {
    var finished := BuyFilled();
    t := SettleTrade(finished, Buy);
    OneClaimCounts();
  }

  // ---- Cleaning while RUNNING ----------------------------------------------------------------------------

  function FlattenLot(generation: nat): SealedAction { SealedAction(CleanupSell(generation), LOT, 0.0, None, 0, 0.0) }

  lemma NextFlattenIsNew(s: System)
    requires Reachable(s)
    ensures CleanupSell(s.ledger.session.cleanupSellClaimed + 1) !in s.ledger.rows
  {
    ReachableKept(s);
  }

  lemma FlattenJustified(s: System, n: nat)
    requires Holding(s, n) && n < MAX_CLEANUP_ACTIONS - 1
    requires CleanupSell(s.ledger.session.cleanupSellClaimed + 1) !in s.ledger.rows
    ensures Claimable(s, FlattenLot(s.ledger.session.cleanupSellClaimed + 1))
  {
    OwnsLot();
  }

  /** A flatten is claimed while the session is RUNNING, and works. */
  lemma FlattenWorking(s: System, n: nat) returns (t: System, k: Kind)
    requires Holding(s, n) && n < MAX_CLEANUP_ACTIONS - 1 && CountCancels(s.ledger.order) == 0
    ensures Reachable(t) && t.position.Idle? && t.now == EPOCH
    ensures k.CleanupSell? && k !in s.ledger.rows && k !in s.exchange.orders
    ensures t.ledger == ClaimedAt(s, FlattenLot(k.generation), Acknowledged, Some(EPOCH))
    ensures t.exchange.fills == s.exchange.fills
    ensures t.exchange.orders == s.exchange.orders[k := Order(FlattenLot(k.generation), |s.ledger.order|, New, EPOCH + NONACCEPTANCE_MIN_AGE)]
  {
    var a := FlattenLot(s.ledger.session.cleanupSellClaimed + 1);
    k := a.kind;
    NextFlattenIsNew(s);
    FlattenJustified(s, n);
    NotYetAccepted(s, a);
    t := PlaceOrder(s, a);
  }

  /** The flatten expires unfilled, and the session is where it was with one slot less. */
  lemma FlattenExpires(s: System, n: nat) returns (t: System)
    requires Holding(s, n) && n < MAX_CLEANUP_ACTIONS - 1 && CountCancels(s.ledger.order) == 0
    ensures Holding(t, n + 1) && CountCancels(t.ledger.order) == 0
  {
    var working, k := FlattenWorking(s, n);
    var expired := Respond(working, Restatus(k, Expired));
    t := SettleTrade(expired, k);
    CountsAppend(s.ledger.order, k);
  }

  lemma {:induction false} FlattensExpire(n: nat) returns (t: System)
    requires n < MAX_CLEANUP_ACTIONS
    ensures Holding(t, n) && CountCancels(t.ledger.order) == 0
  {
    if n == 0 {
      t := LotBought();
      OneClaimCounts();
    } else {
      var s := FlattensExpire(n - 1);
      t := FlattenExpires(s, n - 1);
    }
  }

  // ---- The twelfth slot ------------------------------------------------------------------------------------

  function CancelOf(k: Kind, orderId: nat): SealedAction { SealedAction(Cancel(1), 0.0, 0.0, Some(k), orderId, 0.0) }

  lemma NoCancelYet(s: System)
    requires Reachable(s) && CountCancels(s.ledger.order) == 0
    ensures forall k :: k in s.ledger.rows ==> !k.Cancel?
  {
    ReachableKept(s);
    assert forall g: nat :: Cancel(g) !in s.ledger.rows;
    forall k | k in s.ledger.rows ensures !k.Cancel? {
      match k
      case Cancel(g) =>
      case _ =>
    }
  }

  /** The first cancel of a session may be claimed for its one working order. */
  lemma CancelJustified(s: System, k: Kind)
    requires Reachable(s) && s.position.Idle? && s.ledger.session.capability.Some?
    requires k.Trade() && k in s.exchange.orders && !s.exchange.orders[k].status.Terminal()
    requires CountCancels(s.ledger.order) == 0 && CountCleanup(s.ledger.order) < MAX_CLEANUP_ACTIONS
    requires forall m :: m in s.ledger.rows && !s.ledger.rows[m].state.Terminal() ==> m == k
    ensures Claimable(s, CancelOf(k, s.exchange.orders[k].orderId))
  {
    WorkingListed(s, k);
    NoCancelYet(s);
  }

  lemma WorkingListed(s: System, k: Kind)
    requires Reachable(s) && k in s.exchange.orders && !s.exchange.orders[k].status.Terminal()
    ensures SeenWorking(Snapshot(s), k, s.exchange.orders[k].orderId)
  {
    ReachableKept(s);
    SnapshotShows(s, k);
  }

  lemma CancelReaches(s: System, k: Kind, a: SealedAction) returns (t: System)
    requires k in s.exchange.orders && !s.exchange.orders[k].status.Terminal()
    requires a.kind.Cancel? && a.target == Some(k) && Claimable(s, a)
    ensures Reachable(t) && t.position == Sent(a.kind) && t.now == s.now
    ensures t.ledger == ClaimedAt(s, a, PostMayHaveCrossed, Some(s.now))
    ensures t.exchange.fills == s.exchange.fills
    ensures t.exchange.orders == s.exchange.orders[k := s.exchange.orders[k].(status := Canceled)]
  {
    var sent := SendAction(s, a);
    t := Respond(sent, ExecuteCancel(a.kind));
  }

  lemma CancelExecuted(s: System, k: Kind, a: SealedAction) returns (t: System)
    requires k in s.exchange.orders && !s.exchange.orders[k].status.Terminal()
    requires a.kind.Cancel? && a.target == Some(k) && Claimable(s, a)
    ensures Reachable(t) && t.position.Idle? && t.now == s.now
    ensures t.ledger == ClaimedAt(s, a, Acknowledged, Some(s.now))
    ensures t.exchange.fills == s.exchange.fills
    ensures t.exchange.orders == s.exchange.orders[k := s.exchange.orders[k].(status := Canceled)]
  {
    var executed := CancelReaches(s, k, a);
    t := AcknowledgeAction(s, executed, a);
  }

  /** The eleventh flatten is working, and no cancel has been claimed. */
  lemma LastFlattenWorking() returns (s: System, n: nat, working: System, k: Kind)
    ensures n == MAX_CLEANUP_ACTIONS - 2 && Holding(s, n) && (forall m :: m in s.ledger.rows ==> !m.Cancel?)
    ensures k.CleanupSell? && k !in s.ledger.rows && k !in s.exchange.orders
    ensures working.ledger == ClaimedAt(s, FlattenLot(k.generation), Acknowledged, Some(EPOCH))
    ensures working.exchange.fills == s.exchange.fills
    ensures working.exchange.orders == s.exchange.orders[k := Order(FlattenLot(k.generation), |s.ledger.order|, New, EPOCH + NONACCEPTANCE_MIN_AGE)]
    ensures working.now == EPOCH && Claimable(working, CancelOf(k, |s.ledger.order|))
    ensures CountCleanup(working.ledger.order) == MAX_CLEANUP_ACTIONS - 1
  {
    n := MAX_CLEANUP_ACTIONS - 2;
    s := FlattensExpire(n);
    working, k := FlattenWorking(s, n);
    CountsAppend(s.ledger.order, k);
    NoCancelYet(s);
    CancelJustified(working, k);
  }

  /** That flatten is canceled with the last slot, still in RUNNING; both claims settle. */
  lemma LastSlotTaken() returns (t: System)
    ensures Holding(t, MAX_CLEANUP_ACTIONS)
  {
    var s, n, working, k := LastFlattenWorking();
    var a := CancelOf(k, |s.ledger.order|);
    CountsAppend(working.ledger.order, a.kind);
    var executed := CancelExecuted(working, k, a);
    t := SettleBoth(executed, k, a.kind);
    BothSettled(s, k, a, working, executed, t);
  }

  lemma BothSettled(s: System, k: Kind, a: SealedAction, working: System, executed: System, t: System)
    requires Reachable(t) && AllReconciled(s.ledger) && (forall m :: m in s.ledger.rows ==> !m.Cancel?)
    requires a.target == Some(k) && k.CleanupSell? && a.kind.Cancel?
    requires working.ledger == ClaimedAt(s, FlattenLot(k.generation), Acknowledged, Some(EPOCH))
    requires executed.ledger == ClaimedAt(working, a, Acknowledged, Some(EPOCH))
    requires t.ledger == WithTransition(WithTransition(executed.ledger, k, Reconciled, t.now), a.kind, Reconciled, t.now)
    ensures AllReconciled(t.ledger) && t.ledger.rows.Keys == s.ledger.rows.Keys + {k, a.kind}
    ensures forall m :: m in t.ledger.rows && m.Cancel? ==> t.ledger.rows[m].action.target != Some(Sell)
  {}

  lemma SettleBoth(s: System, k: Kind, c: Kind) returns (t: System)
    requires Reachable(s) && s.position.Idle? && s.ledger.session.capability.Some? && k.Trade() && c.Cancel?
    requires InState(s.ledger, k, Acknowledged) && s.ledger.rows[k].updated <= s.now
    requires InState(s.ledger, c, Acknowledged) && s.ledger.rows[c].updated <= s.now
    requires k in s.exchange.orders && s.exchange.orders[k].status.Terminal() && s.ledger.rows[c].action.target == Some(k)
    ensures Reachable(t)
    ensures t == s.(ledger := WithTransition(WithTransition(s.ledger, k, Reconciled, s.now), c, Reconciled, s.now), seen := s.exchange)
  {
    var settled := SettleTrade(s, k);
    t := SettleCancel(settled, c);
  }

  /** With every slot taken, the natural SELL is signaled, claimed and working. */
  lemma SellWorking() returns (s: System)
    ensures Reachable(s) && s.ledger.session.state.Running? && s.position.Idle?
    ensures CountCleanup(s.ledger.order) == MAX_CLEANUP_ACTIONS && !TargetCanceled(s.ledger.rows, Some(Sell))
    ensures s.ledger.order != [] && s.ledger.order[|s.ledger.order| - 1] == Sell
    ensures Sell in s.exchange.orders && !s.exchange.orders[Sell].status.Terminal()
    ensures forall k :: k in s.exchange.orders && k != Sell ==> s.exchange.orders[k].status.Terminal()
  {
    var full := LastSlotTaken();
    var signaled := SellSignaled(full);
    CountsAppend(full.ledger.order, Sell);
    s := PlaceOrder(signaled, SELL_LOT);
  }

  lemma SellSignaled(full: System) returns (s: System)
    requires Holding(full, MAX_CLEANUP_ACTIONS)
    ensures s == full.(ledger := WithEvaluation(full.ledger, SELL_BAR), seen := full.exchange) && Claimable(s, SELL_LOT)
  {
    s := Signal(full, SELL_BAR);
    FlagsOf(full);
    OwnsLot();
    SellJustified(s);
  }

  lemma FlagsOf(s: System)
    requires Reachable(s)
    ensures (s.ledger.session.buyClaimed <==> Buy in s.ledger.rows) && (s.ledger.session.sellClaimed <==> Sell in s.ledger.rows)
  {
    ReachableKept(s);
  }

  lemma SellJustified(s: System)
    requires Reachable(s) && s.position.Idle? && s.ledger.session.capability.Some?
    requires s.ledger.session.state.Running? && s.now < s.ledger.session.expires && AllReconciled(s.ledger)
    requires s.ledger.session.buyClaimed && !s.ledger.session.sellClaimed && Sell !in s.ledger.rows
    requires s.ledger.evaluations != [] && s.ledger.evaluations[|s.ledger.evaluations| - 1] == SELL_BAR
    requires OwnedQuantity(s.exchange.fills) == LOT
    ensures Claimable(s, SELL_LOT)
  {}

  lemma {:induction false} NothingWorking(kinds: seq<Kind>, ex: Exchange)
    requires forall k :: k in kinds && k in ex.orders ==> ex.orders[k].status.Terminal()
    ensures RowsShown(kinds, ex, true) == []
  {
    if kinds != [] {
      NothingWorking(kinds[..|kinds| - 1], ex);
      assert kinds[|kinds| - 1] in kinds;
    }
  }

  lemma OnlyLastWorking(s: System, k: Kind)
    requires Kept(s) && s.ledger.order != [] && s.ledger.order[|s.ledger.order| - 1] == k
    requires k in s.exchange.orders && !s.exchange.orders[k].status.Terminal()
    requires forall m :: m in s.exchange.orders && m != k ==> s.exchange.orders[m].status.Terminal()
    ensures OwnedOpen(Snapshot(s).open) == Snapshot(s).open == [RowShown(k, s.exchange)]
  {
    var others := s.ledger.order[..|s.ledger.order| - 1];
    assert k !in others;
    NothingWorking(others, s.exchange);
    var row := RowShown(k, s.exchange);
    assert OwnedOpen([row][..0]) == [];
  }

  /**
    At the interface of the service, whose authority reader may answer anything, the cancel planner can
    run out of slots: cleanup claimed while the session is RUNNING takes eleven flattens and one cancel,
    and the natural SELL claimed after them can no longer be canceled -- whatever the planner answers on
    this truth is that the budget is exhausted.  The shipped control never lets a natural leg follow a
    cleanup action, and under it this cannot happen (RecoveryGuarantees.OneWayControlNeverExhausts).
  */
  lemma CancelBudgetCanBeExhausted(rules: SymbolRules) returns (start: System, steps: seq<Step>, truth: AccountTruth)
    ensures Initial(start) && Run(start, steps)
    ensures var end := RunEnd(start, steps);
            && Fresh(end, truth, end.exchange)
            && end.ledger.session.state.Running? && end.ledger.session.capability.Some?
            && |OwnedOpen(truth.open)| == 1 && OwnedOpen(truth.open)[0].client == Owned(Sell)
            && PlanOutcome(BudgetExhausted, end.ledger, end.ledger, truth, rules)
            && forall outcome, M :: PlanOutcome(outcome, end.ledger, M, truth, rules) ==> outcome.BudgetExhausted?
  {
    var s := SellWorking();
    start, steps :| Initial(start) && Run(start, steps) && RunEnd(start, steps) == s;
    truth := Snapshot(s);
    ReachableKept(s);
    OnlyLastWorking(s, Sell);
    SellUncanceled(s, truth);
    NothingButExhausted(s.ledger, truth, rules);
  }

  lemma SellUncanceled(s: System, truth: AccountTruth)
    requires Kept(s) && Fresh(s, truth, s.exchange)
    requires |OwnedOpen(truth.open)| == 1 && OwnedOpen(truth.open)[0].client == Owned(Sell)
    requires !TargetCanceled(s.ledger.rows, Some(Sell))
    ensures Uncanceled(s.ledger, Sell)
  {
    OnlyListed(truth, Sell);
    assert ListedOpen(truth, Sell) && KindTruthful(s, Sell);
    ListedOrderIsUncanceled(s, truth, s.exchange, Sell);
  }

  lemma NothingButExhausted(L: Ledger, truth: AccountTruth, rules: SymbolRules)
    requires |OwnedOpen(truth.open)| == 1 && OwnedOpen(truth.open)[0].client == Owned(Sell)
    requires Uncanceled(L, Sell) && CountCleanup(L.order) == MAX_CLEANUP_ACTIONS
    ensures PlanOutcome(BudgetExhausted, L, L, truth, rules)
    ensures forall outcome, M :: PlanOutcome(outcome, L, M, truth, rules) ==> outcome.BudgetExhausted?
  {
    OnlyListed(truth, Sell);
    assert ListedOpen(truth, Sell);
    forall outcome, M | PlanOutcome(outcome, L, M, truth, rules) ensures outcome.BudgetExhausted? {
      PlannerOnOneOrder(outcome, L, M, truth, rules, Sell);
    }
  }

  // ---- Denied although it happened --------------------------------------------------------------------------

  /** The truth of this state read at a later moment. */
  function SnapshotAt(s: System, observed: real): AccountTruth { Snapshot(s).(observed := observed) }

  lemma LooksAreTrue(s: System, first: real, second: real)
    requires Reachable(s)
    ensures TruthOf(SnapshotAt(s, first), s.exchange) && TruthOf(SnapshotAt(s, second), s.exchange)
  {
    ReachableKept(s);
    SnapshotTrue(s, SnapshotAt(s, first));
    SnapshotTrue(s, SnapshotAt(s, second));
  }

  /** The BUY's marker is committed and its request has not entered the transport. */
  lemma BuyMarked() returns (s: System)
    ensures Reachable(s) && s.position == Marked(Buy) && s.now == EPOCH && s.ledger.session.capability.Some?
    ensures Buy in s.ledger.rows && s.ledger.rows[Buy].action == BUY_LOT && SealedBalances(s, Buy)
  {
    var signaled := BuySignaled();
    s := MarkAction(signaled, BUY_LOT);
    BalancesSealed(signaled, BUY_LOT, PostMayHaveCrossed, Some(EPOCH), s);
  }

  /** A run from a fresh session denies a BUY whose request entered the transport late and became an order. */
  lemma LateBuyIsDenied() returns (start: System)
    ensures Initial(start) && CanDenyOrder(start, Buy)
  {
    var s := BuyMarked();
    MarkedBuyIsDenied(s);
    var before;
    start, before :| Initial(start) && Run(start, before) && RunEnd(start, before) == s;
    DenyOrderBefore(start, before, Buy);
  }

  lemma MarkedBuyIsDenied(s: System)
    requires Reachable(s) && s.position == Marked(Buy) && s.now == EPOCH && s.ledger.session.capability.Some?
    requires Buy in s.ledger.rows && s.ledger.rows[Buy].action == BUY_LOT && SealedBalances(s, Buy)
    ensures CanDenyOrder(s, Buy)
  {
    ReachableKept(s);
    LooksAreTrue(s, EPOCH + 60.0, EPOCH + 65.0);
    LateSendProvenNotAccepted(s, Buy, Snapshot(s), SnapshotAt(s, EPOCH + 60.0), SnapshotAt(s, EPOCH + 65.0), EPOCH + 100.0);
  }

  lemma CancelClaimable(s: System)
    requires BuyOnly(s, Acknowledged) && s.position.Idle?
    requires s.exchange.orders == map[Buy := Order(BUY_LOT, 0, New, EPOCH + NONACCEPTANCE_MIN_AGE)]
    ensures Claimable(s, CancelOf(Buy, 0))
  {
    OneClaimCounts();
    CancelJustified(s, Buy);
  }

  lemma OneClaimCounts()
    ensures CountCleanup([Buy]) == 0 && CountCancels([Buy]) == 0
  {
    CountsAppend([], Buy);
    assert [] + [Buy] == [Buy];
  }

  /** The cancel of the working BUY has been sent. */
  lemma CancelSent() returns (s: System)
    ensures Reachable(s) && s.position == Sent(Cancel(1)) && s.now == EPOCH && s.ledger.session.capability.Some?
    ensures InState(s.ledger, Cancel(1), PostMayHaveCrossed) && SealedBalances(s, Cancel(1))
    ensures s.ledger.rows[Cancel(1)].absenceCount == 0
    ensures BrokerLegal(s.exchange, ExecuteCancel(Cancel(1)), EPOCH)
  {
    var working := BuyWorking();
    CancelClaimable(working);
    var a := CancelOf(Buy, 0);
    s := SendAction(working, a);
    BalancesSealed(working, a, PostMayHaveCrossed, Some(EPOCH), s);
  }

  /** Its outcome is unknown. */
  lemma CancelAwaitingProof() returns (s: System)
    ensures Reachable(s) && AwaitingProof(s, Cancel(1)) && s.now == EPOCH
    ensures s.ledger.rows[Cancel(1)].updated == EPOCH && SealedBalances(s, Cancel(1))
    ensures BrokerLegal(s.exchange, ExecuteCancel(Cancel(1)), EPOCH)
  {
    var sent := CancelSent();
    s := LoseOutcome(sent, Cancel(1));
  }

  lemma LoseOutcome(sent: System, k: Kind) returns (s: System)
    requires Reachable(sent) && sent.position == Sent(k) && InState(sent.ledger, k, PostMayHaveCrossed)
    ensures Reachable(s) && s.position.Idle? && s.now == sent.now && s.exchange == sent.exchange
    ensures s.ledger.session.capability == sent.ledger.session.capability
    ensures s.ledger.session.baselineBase == sent.ledger.session.baselineBase
    ensures k in s.ledger.rows
    ensures s.ledger.rows[k] == sent.ledger.rows[k].(state := ActionState.ReconciliationRequired, updated := sent.now)
  {
    var unknown := Act(sent, OutcomeUnknown(k));
    s := Act(unknown, Fallback);
  }

  /** A run from a fresh session denies a CANCEL that the exchange executed, with every timing assumption kept. */
  lemma ExecutedCancelIsDenied() returns (start: System)
    ensures Initial(start) && CanDenyCancel(start, Cancel(1))
  {
    var s := CancelAwaitingProof();
    SentCancelIsDenied(s);
    var before;
    start, before :| Initial(start) && Run(start, before) && RunEnd(start, before) == s;
    DenyCancelBefore(start, before, Cancel(1));
  }

  lemma SentCancelIsDenied(s: System)
    requires Reachable(s) && AwaitingProof(s, Cancel(1)) && s.now == EPOCH
    requires s.ledger.rows[Cancel(1)].updated == EPOCH && SealedBalances(s, Cancel(1))
    requires BrokerLegal(s.exchange, ExecuteCancel(Cancel(1)), EPOCH)
    ensures CanDenyCancel(s, Cancel(1))
  {
    RequestsAreOwn(s);
    var first, second := LooksAfterCancel(s);
    ExecutedCancelProvenNotAccepted(s, Cancel(1), first, second);
  }

  lemma LooksAfterCancel(s: System) returns (first: AccountTruth, second: AccountTruth)
    requires Reachable(s) && s.now == EPOCH
    requires BrokerLegal(s.exchange, ExecuteCancel(Cancel(1)), EPOCH)
    ensures TruthOf(first, BrokerAfter(s.exchange, ExecuteCancel(Cancel(1)), EPOCH))
    ensures TruthOf(second, BrokerAfter(s.exchange, ExecuteCancel(Cancel(1)), EPOCH))
    ensures first.observed == EPOCH + 60.0 && second.observed == EPOCH + 65.0
    ensures first.baseTotal == second.baseTotal == Snapshot(s).baseTotal
    ensures first.quoteTotal == second.quoteTotal == Snapshot(s).quoteTotal
  {
    var executed := Respond(s, ExecuteCancel(Cancel(1)));
    LooksAreTrue(executed, EPOCH + 60.0, EPOCH + 65.0);
    first, second := SnapshotAt(executed, EPOCH + 60.0), SnapshotAt(executed, EPOCH + 65.0);
  }

  lemma RequestsAreOwn(s: System)
    requires Reachable(s)
    ensures Histories(s) && forall c :: c in s.exchange.inbox ==> s.exchange.inbox[c].action.kind == c
  {
    ReachableKept(s);
    forall c | c in s.exchange.inbox ensures s.exchange.inbox[c].action.kind == c { assert KindTruthful(s, c); }
  }
}
