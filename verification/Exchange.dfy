/**
  The exchange as seen by the lane: accepted orders, requests still in flight, fills so far.
  It may accept, fill, cancel and expire in any order; what it never does is assumed here once:
  no order appears that the lane did not send, a terminal order stays terminal and gets no more
  fills, an order never executes beyond its requested size, SELL fees are not charged in BTC, a BUY
  fee in BTC is at most the BTC bought, and a request is accepted only before its `visibleBy` epoch.
*/
module ExchangeModel {
  import opened FunctionalVocabulary
  import opened OwnerMetrics

  datatype Order = Order(action: SealedAction, orderId: nat, status: OrderStatus, visibleBy: real)

  datatype Request = Request(action: SealedAction, visibleBy: real)

  /** `canceled` holds the cancel requests the exchange has executed. */
  datatype Exchange = Exchange(
    orders: map<Kind, Order>,
    inbox: map<Kind, Request>,
    canceled: set<Kind>,
    fills: seq<Fill>)

  function Executed(fills: seq<Fill>, k: Kind): real {
    if fills == [] then 0.0 else
      var f := fills[|fills| - 1];
      Executed(fills[..|fills| - 1], k) + (if f.client == Owned(k) then f.quantity else 0.0)
  }

  function ExecutedQuote(fills: seq<Fill>, k: Kind): real {
    if fills == [] then 0.0 else
      var f := fills[|fills| - 1];
      ExecutedQuote(fills[..|fills| - 1], k) + (if f.client == Owned(k) then f.quote else 0.0)
  }

  function OwnedQuantity(fills: seq<Fill>): real { TallyFills(fills).Owned() }

  predicate HonestFill(f: Fill) {
    && f.client.Owned? && f.client.kind.Trade()
    && f.side == f.client.kind.OrderSide()
    && WellFormedFill(f)
    && (f.side.SellSide? ==> !f.feeAsset.BaseFee?)
    && (f.side.BuySide? && f.feeAsset.BaseFee? ==> f.commission <= f.quantity)
  }

  predicate WithinRequest(action: SealedAction, fills: seq<Fill>) {
    if action.kind.Buy? then ExecutedQuote(fills, action.kind) <= action.quoteOrderQty
    else Executed(fills, action.kind) <= action.quantity
  }

  predicate Sound(ex: Exchange) {
    && (forall k :: k in ex.orders ==> k.Trade() && ex.orders[k].action.kind == k && WithinRequest(ex.orders[k].action, ex.fills))
    && (forall i :: 0 <= i < |ex.fills| ==> HonestFill(ex.fills[i]) && ex.fills[i].client.kind in ex.orders)
  }

  // ---- Moves -----------------------------------------------------------------------------------

  datatype BrokerMove =
    | Accept(kind: Kind, orderId: nat)
    | Drop(kind: Kind)
    | Execute(fill: Fill)
    | Restatus(kind: Kind, status: OrderStatus)
    | ExecuteCancel(kind: Kind)

  predicate BrokerLegal(ex: Exchange, m: BrokerMove, now: real) {
    match m
    case Accept(k, _) => k in ex.inbox && k.Trade() && k !in ex.orders && now < ex.inbox[k].visibleBy
                         && ex.inbox[k].action.quantity >= 0.0 && ex.inbox[k].action.quoteOrderQty >= 0.0
    case Drop(k) => k in ex.inbox
    case Execute(f) =>
      && HonestFill(f) && f.client.kind in ex.orders
      && !ex.orders[f.client.kind].status.Terminal()
      && WithinRequest(ex.orders[f.client.kind].action, ex.fills + [f])
    case Restatus(k, _) => k in ex.orders && !ex.orders[k].status.Terminal()
    case ExecuteCancel(c) =>
      && c in ex.inbox && c.Cancel? && now < ex.inbox[c].visibleBy
      && ex.inbox[c].action.target.Some? && ex.inbox[c].action.target.value in ex.orders
      && !ex.orders[ex.inbox[c].action.target.value].status.Terminal()
  }

  function BrokerAfter(ex: Exchange, m: BrokerMove, now: real): Exchange
    requires BrokerLegal(ex, m, now)
  {
    match m
    case Accept(k, id) => ex.(
      orders := ex.orders[k := Order(ex.inbox[k].action, id, New, ex.inbox[k].visibleBy)],
      inbox := ex.inbox - {k})
    case Drop(k) => ex.(inbox := ex.inbox - {k})
    case Execute(f) => ex.(fills := ex.fills + [f])
    case Restatus(k, status) => ex.(orders := ex.orders[k := ex.orders[k].(status := status)])
    case ExecuteCancel(c) =>
      var target := ex.inbox[c].action.target.value;
      ex.(orders := ex.orders[target := ex.orders[target].(status := Canceled)],
          inbox := ex.inbox - {c},
          canceled := ex.canceled + {c})
  }

  // ---- History only grows ----------------------------------------------------------------------

  /** `later` is a possible future of `earlier`. */
  predicate Extends(earlier: Exchange, later: Exchange) {
    && (forall k :: k in earlier.orders ==>
          && k in later.orders
          && later.orders[k].action == earlier.orders[k].action && later.orders[k].orderId == earlier.orders[k].orderId
          && (earlier.orders[k].status.Terminal() ==> later.orders[k] == earlier.orders[k]))
    && earlier.fills <= later.fills
    && (forall i :: |earlier.fills| <= i < |later.fills| ==>
          !FinishedIn(earlier, later.fills[i].client))
  }

  predicate FinishedIn(ex: Exchange, client: ClientId) {
    client.Owned? && client.kind in ex.orders && ex.orders[client.kind].status.Terminal()
  }

  lemma ExtendsTransitive(a: Exchange, b: Exchange, c: Exchange)
    requires Extends(a, b) && Extends(b, c)
    ensures Extends(a, c)
  {
    forall i | |a.fills| <= i < |c.fills|
      ensures !FinishedIn(a, c.fills[i].client)
    {
      if i < |b.fills| { assert c.fills[i] == b.fills[i]; }
      assert FinishedIn(a, c.fills[i].client) ==> FinishedIn(b, c.fills[i].client);
    }
  }

  lemma {:induction false} ExecutedAppend(fills: seq<Fill>, f: Fill, k: Kind)
    ensures Executed(fills + [f], k) == Executed(fills, k) + (if f.client == Owned(k) then f.quantity else 0.0)
    ensures ExecutedQuote(fills + [f], k) == ExecutedQuote(fills, k) + (if f.client == Owned(k) then f.quote else 0.0)
  {
    assert (fills + [f])[..|fills|] == fills;
  }

  lemma TallyAppend(fills: seq<Fill>, f: Fill)
    ensures TallyFills(fills + [f]) == AddFill(TallyFills(fills), f)
  {
    assert (fills + [f])[..|fills|] == fills;
  }

  lemma {:induction false} NothingExecuted(fills: seq<Fill>, k: Kind)
    requires forall i :: 0 <= i < |fills| ==> fills[i].client != Owned(k)
    ensures Executed(fills, k) == 0.0 && ExecutedQuote(fills, k) == 0.0
  {
    if fills != [] { NothingExecuted(fills[..|fills| - 1], k); }
  }

  /** Every broker move keeps the exchange sound. */
  lemma BrokerKeepsSound(ex: Exchange, m: BrokerMove, now: real)
    requires Sound(ex) && BrokerLegal(ex, m, now)
    requires forall k :: k in ex.inbox ==> ex.inbox[k].action.kind == k
    ensures Sound(BrokerAfter(ex, m, now))
  {
    match m
    case Accept(k, _) =>
      forall i | 0 <= i < |ex.fills| ensures ex.fills[i].client != Owned(k) {}
      NothingExecuted(ex.fills, k);
    case Drop(_) =>
    case Execute(f) =>
      forall k | k in ex.orders ensures WithinRequest(ex.orders[k].action, ex.fills + [f]) {
        ExecutedAppend(ex.fills, f, k);
      }
    case Restatus(_, _) =>
    case ExecuteCancel(_) =>
  }

  /** Every broker move is a step into the future, so exchange snapshots taken in time order extend one another. */
  lemma BrokerExtends(ex: Exchange, m: BrokerMove, now: real)
    requires BrokerLegal(ex, m, now)
    ensures Extends(ex, BrokerAfter(ex, m, now))
  {
  }

  /** A fill that came later is of an order that was not yet finished. */
  lemma LaterFillIsUnfinished(earlier: Exchange, later: Exchange, i: nat)
    requires Extends(earlier, later) && Sound(later) && |earlier.fills| <= i < |later.fills|
    ensures var k := later.fills[i].client.kind;
            k in later.orders && !(k in earlier.orders && earlier.orders[k].status.Terminal())
  {
    assert !FinishedIn(earlier, later.fills[i].client);
  }

  /** With every order finished in a snapshot, the snapshot already holds every fill there will be. */
  lemma FillsComplete(earlier: Exchange, later: Exchange)
    requires Extends(earlier, later) && Sound(later)
    requires forall k :: k in later.orders ==> k in earlier.orders && earlier.orders[k].status.Terminal()
    ensures earlier.fills == later.fills
  {
    if |earlier.fills| < |later.fills| {
      LaterFillIsUnfinished(earlier, later, |earlier.fills|);
    }
  }

  // ---- What a truthful account truth says --------------------------------------------------------

  predicate RowAgrees(row: OrderRow, order: Order) {
    && row.orderId == order.orderId
    && row.status == order.status
  }

  /** The truth lists exactly the orders and owned fills of this exchange state, finished orders not as open. */
  ghost predicate TruthOf(truth: AccountTruth, ex: Exchange) {
    && (forall row :: row in truth.AllRows() && row.client.Owned? ==>
          row.client.kind in ex.orders && RowAgrees(row, ex.orders[row.client.kind]))
    && (forall k :: k in ex.orders ==> exists row :: row in truth.AllRows() && row.client == Owned(k))
    && (forall row :: row in truth.open && row.client.Owned? ==> !row.status.Terminal())
    && OwnedFills(truth.fills) == ex.fills
  }

  lemma TruthOwnedQuantity(truth: AccountTruth, ex: Exchange)
    requires TruthOf(truth, ex)
    ensures TallyFills(truth.fills) == TallyFills(ex.fills)
  {
    TallyIgnoresForeign(truth.fills);
  }
}
