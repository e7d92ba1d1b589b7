/**
  Reconciling durable claims against one complete broker truth (_reconcile_actions).

  Verdict is what the branches decide for a single claim; the loop applies it to every claim in
  order and stops at the first claim whose truth is contradictory.
*/
module Reconciliation {
  import opened FunctionalVocabulary
  import opened DurableLedger
  import opened ExchangeModel
  import opened OrderProtocol

  datatype Verdict = Keep | Settle(state: ActionState) | Stop(reason: string)

  predicate IsOrder(row: OrderRow, client: ClientId, id: Option<nat>) { row.client == client && (id.Some? ==> row.orderId == id.value) }

  /** The rows of a client, only those with this broker id where one is given. */
  function RowsOf(rows: seq<OrderRow>, client: ClientId, id: Option<nat>): (matches: seq<OrderRow>)
    ensures forall row :: row in matches <==> row in rows && IsOrder(row, client, id)
  {
    if rows == [] then [] else
      var rest := RowsOf(rows[..|rows| - 1], client, id);
      var last := rows[|rows| - 1];
      assert rows == rows[..|rows| - 1] + [last];
      if IsOrder(last, client, id) then rest + [last] else rest
  }

  predicate StillWorking(truth: AccountTruth, row: OrderRow) { row in truth.open || !row.status.Terminal() }

  predicate HasFill(truth: AccountTruth, k: Kind) { exists f :: f in truth.fills && f.client == Owned(k) }

  /** The order row is the one the claim sealed. */
  predicate SealedShape(row: OrderRow, a: SealedAction) {
    && row.side == a.kind.OrderSide() && row.market
    && (if a.kind.Buy? then row.origQuoteOrderQty == a.quoteOrderQty else row.origQty == a.quantity)
  }

  /** Executed quantity and quote equal the sums over the order's own fills. */
  predicate FillsComplete(row: OrderRow, truth: AccountTruth, k: Kind) {
    && (row.executedQty > 0.0 ==> HasFill(truth, k))
    && (row.executedQty == 0.0 ==> !HasFill(truth, k))
    && Executed(truth.fills, k) == row.executedQty
    && ExecutedQuote(truth.fills, k) == row.executedQuote
    && (row.status.Filled? ==> row.executedQty > 0.0 && row.executedQuote > 0.0)
  }

  function CancelVerdict(a: SealedAction, truth: AccountTruth, requireAll: bool): Verdict {
    if a.target == None then Stop("cancel claim has no target") else
      var matches := RowsOf(truth.AllRows(), Owned(a.target.value), Some(a.targetOrderId));
      if |matches| != 1 then Stop("cancel target is absent or duplicated in complete truth")
      else if StillWorking(truth, matches[0]) then
        if requireAll then Stop("cancel target is still working") else Keep
      else Settle(Reconciled)
  }

  function TradeVerdict(a: SealedAction, k: Kind, truth: AccountTruth, requireAll: bool): Verdict {
    var matches := RowsOf(truth.AllRows(), Owned(k), None);
    if |matches| != 1 then Stop("exact order is absent or duplicated in complete truth")
    else if !SealedShape(matches[0], a) then Stop("exact order changed")
    else if StillWorking(truth, matches[0]) then
      if requireAll then Stop("exact order is not terminal") else Keep
    else if !FillsComplete(matches[0], truth, k) then Stop("fill truth disagrees with the order")
    else Settle(Reconciled)
  }

  function NotSentVerdict(row: ActionRow, k: Kind, truth: AccountTruth): Verdict {
    if !NotPredating(truth, row) then Stop("broker truth predates the proven NOT_SENT state")
    else if k.Trade() && (RowsOf(truth.AllRows(), Owned(k), None) != [] || HasFill(truth, k)) then
      Stop("NOT_SENT action unexpectedly exists in complete broker truth")
    else Settle(ProvenNotAccepted)
  }

  function VerdictOn(row: ActionRow, k: Kind, truth: AccountTruth, requireAll: bool): Verdict {
    if row.state.Terminal() then Keep
    else if row.state.NotSent? then NotSentVerdict(row, k, truth)
    else if row.state.Claimed? then (if requireAll then Stop("durable action remains CLAIMED") else Keep)
    else if !NotPredating(truth, row) then Stop("broker truth predates the latest durable action state")
    else if k.Cancel? then CancelVerdict(row.action, truth, requireAll)
    else TradeVerdict(row.action, k, truth, requireAll)
  }

  function SettledRow(row: ActionRow, k: Kind, truth: AccountTruth, requireAll: bool, now: real): ActionRow {
    match VerdictOn(row, k, truth, requireAll)
    case Settle(state) => row.(state := state, updated := now)
    case _ => row
  }

  /** A settling verdict is always a legal protocol move. */
  lemma SettlingIsLegal(L: Ledger, k: Kind, truth: AccountTruth, requireAll: bool, now: real)
    requires k in L.rows && L.session.capability.Some?
    requires VerdictOn(L.rows[k], k, truth, requireAll).Settle?
    ensures var state := VerdictOn(L.rows[k], k, truth, requireAll).state;
            var m := if state.ProvenNotAccepted? then ProveNotSent(k) else Reconcile(k);
            MoveLegal(L, m, truth, now) && MoveAfter(L, m, truth, now) == WithTransition(L, k, state, now)
  {
    if L.rows[k].state.NotSent? {
      NotSentIsLegal(L, k, truth, requireAll, now);
    } else {
      SettledIsSeen(L.rows[k], k, truth, requireAll);
    }
  }

  lemma NotSentIsLegal(L: Ledger, k: Kind, truth: AccountTruth, requireAll: bool, now: real)
    requires InState(L, k, NotSent) && L.session.capability.Some? && VerdictOn(L.rows[k], k, truth, requireAll).Settle?
    ensures VerdictOn(L.rows[k], k, truth, requireAll) == Settle(ProvenNotAccepted)
    ensures MoveLegal(L, ProveNotSent(k), truth, now)
    ensures MoveAfter(L, ProveNotSent(k), truth, now) == WithTransition(L, k, ProvenNotAccepted, now)
  {}

  /** What settles a sent claim is a finished order the truth lists. */
  lemma SettledIsSeen(row: ActionRow, k: Kind, truth: AccountTruth, requireAll: bool)
    requires VerdictOn(row, k, truth, requireAll).Settle? && !row.state.NotSent?
    ensures k.Cancel? ==> row.action.target.Some?
    ensures SeenTerminal(truth, if k.Cancel? then row.action.target.value else k)
  {
    var matches := if k.Cancel? then RowsOf(truth.AllRows(), Owned(row.action.target.value), Some(row.action.targetOrderId))
                   else RowsOf(truth.AllRows(), Owned(k), None);
    assert matches[0] in matches;
  }

  /**
    What RECONCILED means for a BUY or SELL: the truth lists its order exactly once, in the sealed
    shape, finished, and the order's own fills add up to exactly what it executed.
  */
  lemma ReconciledMeansAccounted(row: ActionRow, k: Kind, truth: AccountTruth, requireAll: bool)
    requires k.Trade() && row.state.Reconcilable()
    ensures VerdictOn(row, k, truth, requireAll) == Settle(Reconciled) <==>
              && NotPredating(truth, row)
              && exists order :: RowsOf(truth.AllRows(), Owned(k), None) == [order]
                   && SealedShape(order, row.action) && !StillWorking(truth, order) && FillsComplete(order, truth, k)
  {
    SentTradeVerdict(row, k, truth, requireAll);
    TradeReconciled(row.action, k, truth, requireAll);
  }

  lemma SentTradeVerdict(row: ActionRow, k: Kind, truth: AccountTruth, requireAll: bool)
    requires k.Trade() && row.state.Reconcilable()
    ensures if NotPredating(truth, row) then VerdictOn(row, k, truth, requireAll) == TradeVerdict(row.action, k, truth, requireAll)
            else VerdictOn(row, k, truth, requireAll).Stop?
  {}

  lemma TradeReconciled(a: SealedAction, k: Kind, truth: AccountTruth, requireAll: bool)
    ensures TradeVerdict(a, k, truth, requireAll) == Settle(Reconciled) <==>
              exists order :: RowsOf(truth.AllRows(), Owned(k), None) == [order]
                && SealedShape(order, a) && !StillWorking(truth, order) && FillsComplete(order, truth, k)
  {
    var matches := RowsOf(truth.AllRows(), Owned(k), None);
    if |matches| == 1 {
      assert matches == [matches[0]];
      OnlyRowDecides(a, k, truth, requireAll, matches[0]);
    }
  }

  lemma OnlyRowDecides(a: SealedAction, k: Kind, truth: AccountTruth, requireAll: bool, order: OrderRow)
    requires RowsOf(truth.AllRows(), Owned(k), None) == [order]
    ensures TradeVerdict(a, k, truth, requireAll) == Settle(Reconciled) <==>
              SealedShape(order, a) && !StillWorking(truth, order) && FillsComplete(order, truth, k)
  {}

  // ---- What each verdict means ---------------------------------------------------------------------------

  /** Exactly one row of the truth is this client's order, with this broker id where one is given, and it is `order`. */
  ghost predicate ListedOnce(rows: seq<OrderRow>, client: ClientId, id: Option<nat>, order: OrderRow) {
    exists i :: 0 <= i < |rows| && rows[i] == order && IsOnly(rows, client, id, i)
  }

  ghost predicate IsOnly(rows: seq<OrderRow>, client: ClientId, id: Option<nat>, i: int) {
    forall j :: 0 <= j < |rows| ==> (IsOrder(rows[j], client, id) <==> j == i)
  }

  /** The order is listed as open, or its status is not one an order ends in. */
  predicate Working(truth: AccountTruth, order: OrderRow) {
    order in truth.open || order.status.New? || order.status.PendingNew? || order.status.PartiallyFilled? || order.status.PendingCancel?
  }

  /** The order the claim asked for: its side, a market order, and its quantity or, for a BUY, its amount. */
  predicate AskedFor(order: OrderRow, a: SealedAction) {
    && order.market
    && (a.kind.Buy? ==> order.side.BuySide? && order.origQuoteOrderQty == a.quoteOrderQty)
    && (!a.kind.Buy? ==> order.side.SellSide? && order.origQty == a.quantity)
  }

  /** The order's own fills add up to what it says it executed, and there are some exactly when it executed something. */
  ghost predicate Accounted(order: OrderRow, truth: AccountTruth, k: Kind) {
    && Executed(truth.fills, k) == order.executedQty && ExecutedQuote(truth.fills, k) == order.executedQuote
    && (order.executedQty > 0.0 ==> exists f :: f in truth.fills && f.client == Owned(k))
    && (order.executedQty == 0.0 ==> forall f :: f in truth.fills ==> f.client != Owned(k))
    && (order.status.Filled? ==> order.executedQty > 0.0 && order.executedQuote > 0.0)
  }

  /** The truth is not older than the claim's last durable change, up to a millisecond. */
  predicate Current(truth: AccountTruth, row: ActionRow) { row.updated <= truth.observed + 0.001 }

  lemma OnceAppendOther(rows: seq<OrderRow>, last: OrderRow, client: ClientId, id: Option<nat>, order: OrderRow)
    requires !IsOrder(last, client, id)
    ensures ListedOnce(rows + [last], client, id, order) <==> ListedOnce(rows, client, id, order)
  {
    var all := rows + [last];
    assert forall j :: 0 <= j < |rows| ==> rows[j] == all[j];
    forall i | 0 <= i < |rows| ensures IsOnly(all, client, id, i) <==> IsOnly(rows, client, id, i) {}
    assert !IsOnly(all, client, id, |rows|) by { assert all[|rows|] == last; }
  }

  lemma OnceAppendOrder(rows: seq<OrderRow>, last: OrderRow, client: ClientId, id: Option<nat>, order: OrderRow)
    requires IsOrder(last, client, id)
    ensures ListedOnce(rows + [last], client, id, order) <==>
              order == last && forall row :: row in rows ==> !IsOrder(row, client, id)
  {
    var all := rows + [last];
    assert all[|rows|] == last && forall j :: 0 <= j < |rows| ==> rows[j] == all[j];
    forall i | 0 <= i < |all| && IsOnly(all, client, id, i) ensures i == |rows| {}
    assert IsOnly(all, client, id, |rows|) <==> forall row :: row in rows ==> !IsOrder(row, client, id);
  }

  lemma {:induction false} RowsOfOnce(rows: seq<OrderRow>, client: ClientId, id: Option<nat>, order: OrderRow)
    ensures RowsOf(rows, client, id) == [order] <==> ListedOnce(rows, client, id, order)
  {
    if rows != [] {
      var rest, last := rows[..|rows| - 1], rows[|rows| - 1];
      assert rows == rest + [last];
      if IsOrder(last, client, id) {
        OnceAppendOrder(rest, last, client, id, order);
        NoneListed(rest, client, id);
      } else {
        OnceAppendOther(rest, last, client, id, order);
        RowsOfOnce(rest, client, id, order);
      }
    }
  }

  lemma NoneListed(rows: seq<OrderRow>, client: ClientId, id: Option<nat>)
    ensures RowsOf(rows, client, id) == [] <==> forall row :: row in rows ==> !IsOrder(row, client, id)
  {
    var matches := RowsOf(rows, client, id);
    if matches != [] { assert matches[0] in matches; }
  }

  predicate SentState(state: ActionState) {
    state.Submitting? || state.PostMayHaveCrossed? || state.Acknowledged? || state.ReconciliationRequired?
  }

  /** The one order a sent claim is about: its own, as it was asked for, or the one a cancel names. */
  ghost predicate OrderOf(row: ActionRow, k: Kind, truth: AccountTruth, order: OrderRow) {
    if k.Cancel? then
      row.action.target.Some? && ListedOnce(truth.AllRows(), Owned(row.action.target.value), Some(row.action.targetOrderId), order)
    else
      ListedOnce(truth.AllRows(), Owned(k), None, order) && AskedFor(order, row.action)
  }

  /** The claim stays as it is: finished, or not yet sent, or its order still works. */
  ghost predicate LeftPending(row: ActionRow, k: Kind, truth: AccountTruth, requireAll: bool) {
    || row.state.Reconciled? || row.state.ProvenNotAccepted? || row.state.AmbiguousProvenNotAccepted?
    || (!requireAll && row.state.Claimed?)
    || (!requireAll && SentState(row.state) && Current(truth, row)
        && exists order :: OrderOf(row, k, truth, order) && Working(truth, order))
  }

  /** The order of the claim is finished and, for a trade, its fills add up. */
  ghost predicate Finished(row: ActionRow, k: Kind, truth: AccountTruth) {
    && SentState(row.state) && Current(truth, row)
    && exists order :: OrderOf(row, k, truth, order) && !Working(truth, order) && (k.Trade() ==> Accounted(order, truth, k))
  }

  /** A claim that was never sent left no trace. */
  predicate NeverSeen(row: ActionRow, k: Kind, truth: AccountTruth) {
    && row.state.NotSent? && Current(truth, row)
    && (k.Trade() ==>
          && (forall order :: order in truth.AllRows() ==> order.client != Owned(k))
          && (forall f :: f in truth.fills ==> f.client != Owned(k)))
  }

  /**
    Every verdict in the rows and fills of the truth: which claims are left alone, which are settled
    and how, and that reconciliation stops at all the others.
  */
  lemma VerdictsMean(row: ActionRow, k: Kind, truth: AccountTruth, requireAll: bool)
    ensures var verdict := VerdictOn(row, k, truth, requireAll);
            && (verdict.Keep? <==> LeftPending(row, k, truth, requireAll))
            && (verdict == Settle(Reconciled) <==> Finished(row, k, truth))
            && (verdict == Settle(ProvenNotAccepted) <==> NeverSeen(row, k, truth))
            && (verdict.Stop? <==>
                  !LeftPending(row, k, truth, requireAll) && !Finished(row, k, truth) && !NeverSeen(row, k, truth))
  {
    if SentState(row.state) {
      if k.Cancel? {
        CancelVerdictMeans(row, k, truth, requireAll);
      } else {
        TradeVerdictMeans(row, k, truth, requireAll);
      }
    } else {
      UnsentVerdictMeans(row, k, truth, requireAll);
    }
  }

  lemma UnsentVerdictMeans(row: ActionRow, k: Kind, truth: AccountTruth, requireAll: bool)
    requires !SentState(row.state)
    ensures var verdict := VerdictOn(row, k, truth, requireAll);
            && (verdict.Keep? <==> LeftPending(row, k, truth, requireAll))
            && (verdict == Settle(ProvenNotAccepted) <==> NeverSeen(row, k, truth))
            && (verdict.Settle? ==> verdict == Settle(ProvenNotAccepted))
  {
    NoneListed(truth.AllRows(), Owned(k), None);
  }

  lemma MatchesMean(rows: seq<OrderRow>, client: ClientId, id: Option<nat>)
    ensures var matches := RowsOf(rows, client, id);
            && (|matches| == 1 ==> forall order :: ListedOnce(rows, client, id, order) <==> order == matches[0])
            && (|matches| != 1 ==> forall order :: !ListedOnce(rows, client, id, order))
  {
    var matches := RowsOf(rows, client, id);
    forall order ensures ListedOnce(rows, client, id, order) <==> matches == [order] { RowsOfOnce(rows, client, id, order); }
    if |matches| == 1 {
      forall order ensures matches == [order] <==> order == matches[0] {}
    }
  }

  lemma SameTests(order: OrderRow, a: SealedAction, truth: AccountTruth, k: Kind)
    ensures StillWorking(truth, order) <==> Working(truth, order)
    ensures SealedShape(order, a) <==> AskedFor(order, a)
    ensures FillsComplete(order, truth, k) <==> Accounted(order, truth, k)
  {}

  lemma TradeVerdictMeans(row: ActionRow, k: Kind, truth: AccountTruth, requireAll: bool)
    requires k.Trade() && SentState(row.state)
    ensures var verdict := VerdictOn(row, k, truth, requireAll);
            && (verdict.Keep? <==> LeftPending(row, k, truth, requireAll))
            && (verdict == Settle(Reconciled) <==> Finished(row, k, truth))
            && (verdict.Settle? ==> verdict == Settle(Reconciled))
  {
    SentTradeVerdict(row, k, truth, requireAll);
    var rows := truth.AllRows();
    var matches := RowsOf(rows, Owned(k), None);
    MatchesMean(rows, Owned(k), None);
    if |matches| == 1 {
      SameTests(matches[0], row.action, truth, k);
      TheOrder(row, k, truth, matches[0]);
    } else {
      assert forall order :: !OrderOf(row, k, truth, order);
    }
  }

  /** With one candidate, what the claim's order is like is what the candidate is like. */
  lemma TheOrder(row: ActionRow, k: Kind, truth: AccountTruth, candidate: OrderRow)
    requires forall order :: OrderOf(row, k, truth, order) ==> order == candidate
    ensures (exists order :: OrderOf(row, k, truth, order) && Working(truth, order)) <==>
              OrderOf(row, k, truth, candidate) && Working(truth, candidate)
    ensures (exists order :: OrderOf(row, k, truth, order) && !Working(truth, order) && (k.Trade() ==> Accounted(order, truth, k))) <==>
              OrderOf(row, k, truth, candidate) && !Working(truth, candidate) && (k.Trade() ==> Accounted(candidate, truth, k))
  {}

  lemma CancelVerdictMeans(row: ActionRow, k: Kind, truth: AccountTruth, requireAll: bool)
    requires k.Cancel? && SentState(row.state)
    ensures var verdict := VerdictOn(row, k, truth, requireAll);
            && (verdict.Keep? <==> LeftPending(row, k, truth, requireAll))
            && (verdict == Settle(Reconciled) <==> Finished(row, k, truth))
            && (verdict.Settle? ==> verdict == Settle(Reconciled))
  {
    if row.action.target.Some? {
      var rows, client, id := truth.AllRows(), Owned(row.action.target.value), Some(row.action.targetOrderId);
      var matches := RowsOf(rows, client, id);
      MatchesMean(rows, client, id);
      if |matches| == 1 {
        SameTests(matches[0], row.action, truth, k);
        TheOrder(row, k, truth, matches[0]);
      } else {
        assert forall order :: !OrderOf(row, k, truth, order);
      }
    }
  }

  // ---- The loop --------------------------------------------------------------------------------------

  /** Claims before `i` are settled, the others untouched, and nothing else moved. */
  ghost predicate SettledUpTo(L: Ledger, i: nat, truth: AccountTruth, requireAll: bool, now: real, M: Ledger)
    requires i <= |L.order|
  {
    && M.session == L.session && M.order == L.order && M.evaluations == L.evaluations
    && M.rows.Keys == L.rows.Keys
    && (forall k :: k in L.rows && k in L.order[..i] ==> M.rows[k] == SettledRow(L.rows[k], k, truth, requireAll, now))
    && (forall k :: k in L.rows && k !in L.order[..i] ==> M.rows[k] == L.rows[k])
  }

  predicate NoStop(L: Ledger, i: nat, truth: AccountTruth, requireAll: bool)
    requires i <= |L.order|
  {
    forall k :: k in L.order[..i] && k in L.rows ==> !VerdictOn(L.rows[k], k, truth, requireAll).Stop?
  }

  function WithSettled(L: Ledger, k: Kind, truth: AccountTruth, requireAll: bool, now: real): Ledger
    requires k in L.rows
  {
    L.(rows := L.rows[k := SettledRow(L.rows[k], k, truth, requireAll, now)])
  }

  /** One more claim settled. */
  lemma SettledStep(L: Ledger, i: nat, truth: AccountTruth, requireAll: bool, now: real, M: Ledger)
    requires Listed(L) && i < |L.order| && SettledUpTo(L, i, truth, requireAll, now, M)
    ensures var k := L.order[i];
            && k in L.rows && k in M.rows && M.rows[k] == L.rows[k]
            && SettledUpTo(L, i + 1, truth, requireAll, now, WithSettled(M, k, truth, requireAll, now))
  {
    var target := map k | k in L.rows :: SettledRow(L.rows[k], k, truth, requireAll, now);
    RowsStep(L.rows, target, L.order, i, M.rows);
  }

  /** The same for any rows to arrive at. */
  lemma RowsStep(rows: map<Kind, ActionRow>, target: map<Kind, ActionRow>, order: seq<Kind>, i: nat, current: map<Kind, ActionRow>)
    requires rows.Keys == target.Keys == current.Keys && i < |order| && order[i] in rows
    requires forall j, m :: 0 <= j < m < |order| ==> order[j] != order[m]
    requires forall k :: k in rows && k in order[..i] ==> current[k] == target[k]
    requires forall k :: k in rows && k !in order[..i] ==> current[k] == rows[k]
    ensures current[order[i]] == rows[order[i]]
    ensures var next := current[order[i] := target[order[i]]];
            && next.Keys == rows.Keys
            && (forall k :: k in rows && k in order[..i + 1] ==> next[k] == target[k])
            && (forall k :: k in rows && k !in order[..i + 1] ==> next[k] == rows[k])
  {
    NextIsNew(order, i);
    assert current.Keys + {order[i]} == rows.Keys;
  }

  lemma NextIsNew(order: seq<Kind>, i: nat)
    requires i < |order| && (forall j, m :: 0 <= j < m < |order| ==> order[j] != order[m])
    ensures order[i] !in order[..i]
    ensures forall k :: k in order[..i + 1] <==> k in order[..i] || k == order[i]
  {
    assert order[..i + 1] == order[..i] + [order[i]];
  }

  lemma NoStopStep(L: Ledger, i: nat, truth: AccountTruth, requireAll: bool)
    requires i < |L.order| && L.order[i] in L.rows && NoStop(L, i, truth, requireAll)
    ensures !VerdictOn(L.rows[L.order[i]], L.order[i], truth, requireAll).Stop? ==> NoStop(L, i + 1, truth, requireAll)
  {
    assert L.order[..i + 1] == L.order[..i] + [L.order[i]];
  }

  /** Settle one claim, or stop at it. */
  method SettleClaim(ledger: DurableFunctionalLedger, k: Kind, truth: AccountTruth, requireAll: bool, now: real)
    returns (reply: Reply<bool>, ghost moves: seq<Move>)
    requires k in ledger.rows && ledger.session.capability.Some?
    modifies ledger`rows
    ensures reply.Blocked? <==> VerdictOn(old(ledger.rows)[k], k, truth, requireAll).Stop?
    ensures reply.Blocked? ==> ledger.Tables() == old(ledger.Tables())
    ensures reply.Done? ==>
              ledger.Tables() == WithSettled(old(ledger.Tables()), k, truth, requireAll, now)
    ensures Moves(old(ledger.Tables()), moves, truth, now, ledger.Tables())
  {
    ghost var L := ledger.Tables();
    moves := [];
    var row := ledger.rows[k];
    var verdict := VerdictOn(row, k, truth, requireAll);
    if verdict.Stop? {
      return Blocked(verdict.reason), moves;
    }
    if verdict.Settle? {
      var moved := ledger.TransitionAction(k, row.state, verdict.state, now);
      SettlingIsLegal(L, k, truth, requireAll, now);
      MovesAppend(L, [], truth, now, L, if verdict.state.ProvenNotAccepted? then ProveNotSent(k) else Reconcile(k));
      moves := [] + [if verdict.state.ProvenNotAccepted? then ProveNotSent(k) else Reconcile(k)];
    }
    return Done(true), moves;
  }

  method ReconcileActions(ledger: DurableFunctionalLedger, truth: AccountTruth, requireAll: bool, now: real)
    returns (reply: Reply<bool>, ghost moves: seq<Move>, ghost settled: nat)
    requires ledger.session.capability.Some? && Listed(ledger.Tables())
    modifies ledger`rows
    ensures Moves(old(ledger.Tables()), moves, truth, now, ledger.Tables())
    ensures settled <= |old(ledger.order)| && NoStop(old(ledger.Tables()), settled, truth, requireAll)
    ensures SettledUpTo(old(ledger.Tables()), settled, truth, requireAll, now, ledger.Tables())
    ensures reply.Done? ==> settled == |old(ledger.order)|
    ensures reply.Blocked? ==>
              && settled < |old(ledger.order)|
              && var k := old(ledger.order)[settled]; VerdictOn(old(ledger.rows)[k], k, truth, requireAll).Stop?
  {
    ghost var L := ledger.Tables();
    moves, settled := [], 0;
    var i := 0;
    while i < |ledger.order|
      invariant 0 <= i <= |ledger.order| && settled == i
      invariant SettledUpTo(L, i, truth, requireAll, now, ledger.Tables())
      invariant NoStop(L, i, truth, requireAll)
      invariant Moves(L, moves, truth, now, ledger.Tables())
    {
      ghost var M := ledger.Tables();
      SettledStep(L, i, truth, requireAll, now, M);
      NoStopStep(L, i, truth, requireAll);
      var one, ms := SettleClaim(ledger, ledger.order[i], truth, requireAll, now);
      MovesConcat(L, moves, M, ms, ledger.Tables(), truth, now);
      moves := moves + ms;
      if one.Blocked? {
        return Blocked(one.reason), moves, settled;
      }
      i, settled := i + 1, settled + 1;
    }
    return Done(true), moves, settled;
  }
}
