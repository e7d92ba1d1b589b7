/**
  Where the delayed nonacceptance proof stops being a proof.

  For a BUY or SELL it rests on the transport being entered soon after the marker; a process paused
  between the two defeats it.  For a CANCEL it never says anything about the exchange, because no
  order and no fill carries a cancel's client id.
*/
module NonacceptanceLimits {
  import opened FunctionalVocabulary
  import opened OwnerMetrics
  import opened DurableLedger
  import opened ExchangeModel
  import opened OrderProtocol
  import opened ProtocolInvariant
  import opened ServiceRuns

  /** Two truths of one exchange state that satisfy the waiting times and show the sealed balances. */
  ghost predicate QuietPair(row: ActionRow, first: AccountTruth, second: AccountTruth, ex: Exchange) {
    && TruthOf(first, ex) && TruthOf(second, ex)
    && row.preBase == Some(first.baseTotal) == Some(second.baseTotal)
    && row.preQuote == Some(first.quoteTotal) == Some(second.quoteTotal)
    && first.observed - row.updated >= NONACCEPTANCE_MIN_AGE
    && second.observed - first.observed >= NONACCEPTANCE_MIN_SPACING
  }

  /** A claim the exchange shows no trace of. */
  lemma UnseenWithoutOrder(truth: AccountTruth, ex: Exchange, k: Kind)
    requires TruthOf(truth, ex) && Sound(ex) && k !in ex.orders
    ensures Unseen(truth, k)
  {
    forall f | f in truth.fills && f.client.Owned? ensures f.client.kind in ex.orders {
      assert f in OwnedFills(truth.fills);
    }
  }

  /** The truth of every exchange state leaves every CANCEL claim unseen, executed or not. */
  lemma CancelAlwaysUnseen(truth: AccountTruth, ex: Exchange, k: Kind)
    requires TruthOf(truth, ex) && Sound(ex) && k.Cancel?
    ensures Unseen(truth, k)
  {
    UnseenWithoutOrder(truth, ex, k);
  }

  ghost predicate AwaitingProof(s: System, k: Kind) {
    && s.position.Idle? && s.ledger.session.capability.Some?
    && InState(s.ledger, k, ActionState.ReconciliationRequired) && s.ledger.rows[k].absenceCount == 0
  }

  /** Two quiet truths terminalize the claim as nonaccepted while nothing changes on the exchange. */
  lemma TwoLooks(s: System, k: Kind, first: AccountTruth, second: AccountTruth)
    requires AwaitingProof(s, k) && s.now <= first.observed
    requires Histories(s) && Unseen(first, k) && Unseen(second, k)
    requires QuietPair(s.ledger.rows[k], first, second, s.exchange)
    ensures var steps := TwoLookSteps(s, k, first, second);
            && Run(s, steps)
            && var end := RunEnd(s, steps);
               && end.exchange == s.exchange && end.now == second.observed && end.position.Idle?
               && InState(end.ledger, k, AmbiguousProvenNotAccepted)
  {
    ExtendsReflexive(s.exchange);
    var steps := TwoLookSteps(s, k, first, second);
    RunAppend(s, [], steps[0]);
    assert [] + [steps[0]] == steps[..1];
    RunAppend(s, steps[..1], steps[1]);
    assert steps[..1] + [steps[1]] == steps[..2];
    RunAppend(s, steps[..2], steps[2]);
    assert steps[..2] + [steps[2]] == steps[..3];
    RunAppend(s, steps[..3], steps[3]);
    assert steps[..3] + [steps[3]] == steps;
  }

  /** The exact lookup, answered when the truth was taken. */
  function NotFoundAt(k: Kind, truth: AccountTruth): OrderQuery { OrderQuery(true, true, Owned(k), true, -2013, truth.observed) }

  function TwoLookSteps(s: System, k: Kind, first: AccountTruth, second: AccountTruth): seq<Step> {
    [Tick(first.observed), Service(ObserveAbsence(k, NotFoundAt(k, first)), first, s.exchange),
     Tick(second.observed), Service(ObserveAbsence(k, NotFoundAt(k, second)), second, s.exchange)]
  }

  /** Some run ends with the cancel executed and its claim proven not accepted. */
  ghost predicate CanDenyCancel(s: System, k: Kind) {
    exists steps :: Run(s, steps)
      && InState(RunEnd(s, steps).ledger, k, AmbiguousProvenNotAccepted)
      && k in RunEnd(s, steps).exchange.canceled
  }

  lemma DenyCancelEarlier(s: System, step: Step, k: Kind)
    requires StepLegal(s, step) && CanDenyCancel(StepAfter(s, step), k)
    ensures CanDenyCancel(s, k)
  {
    var rest :| Run(StepAfter(s, step), rest)
      && InState(RunEnd(StepAfter(s, step), rest).ledger, k, AmbiguousProvenNotAccepted)
      && k in RunEnd(StepAfter(s, step), rest).exchange.canceled;
    var steps := [step] + rest;
    assert steps[0] == step && steps[1..] == rest;
    assert Run(s, steps);
  }

  lemma {:induction false} DenyCancelBefore(s: System, steps: seq<Step>, k: Kind)
    requires Run(s, steps) && CanDenyCancel(RunEnd(s, steps), k)
    ensures CanDenyCancel(s, k)
    decreases |steps|
  {
    if steps != [] {
      DenyCancelBefore(StepAfter(s, steps[0]), steps[1..], k);
      DenyCancelEarlier(s, steps[0], k);
    }
  }

  /**
    A CANCEL the exchange executed is nevertheless proven not accepted: from every state in which its
    request is still on the way, the exchange executes it, the balances stay as they were, and the
    claim ends AMBIGUOUS_PROVEN_NOT_ACCEPTED -- on a run with every timing assumption kept.
  */
  lemma ExecutedCancelProvenNotAccepted(s: System, k: Kind, first: AccountTruth, second: AccountTruth)
    requires k.Cancel? && AwaitingProof(s, k) && Histories(s) && s.now <= first.observed
    requires BrokerLegal(s.exchange, ExecuteCancel(k), s.now)
    requires forall c :: c in s.exchange.inbox ==> s.exchange.inbox[c].action.kind == c
    requires QuietPair(s.ledger.rows[k], first, second, BrokerAfter(s.exchange, ExecuteCancel(k), s.now))
    ensures CanDenyCancel(s, k)
  {
    var t := StepAfter(s, Broker(ExecuteCancel(k)));
    BrokerKeepsSound(s.exchange, ExecuteCancel(k), s.now);
    BrokerExtends(s.exchange, ExecuteCancel(k), s.now);
    ExtendsTransitive(s.seen, s.exchange, t.exchange);
    CancelAlwaysUnseen(first, t.exchange, k);
    CancelAlwaysUnseen(second, t.exchange, k);
    TwoLooks(t, k, first, second);
    assert CanDenyCancel(t, k);
    DenyCancelEarlier(s, Broker(ExecuteCancel(k)), k);
  }

  // ---- A late request ---------------------------------------------------------------------------------

  /** A run in which nothing is assumed about how soon after its marker a request can be accepted. */
  ghost predicate UntimedRun(s: System, steps: seq<Step>)
    decreases |steps|
  {
    steps == [] || (StepLegalUntimed(s, steps[0]) && UntimedRun(StepAfter(s, steps[0]), steps[1..]))
  }

  ghost function UntimedEnd(s: System, steps: seq<Step>): System
    requires UntimedRun(s, steps)
    decreases |steps|
  {
    if steps == [] then s else UntimedEnd(StepAfter(s, steps[0]), steps[1..])
  }

  /** Some untimed run ends with the claim proven not accepted and its order on the exchange. */
  ghost predicate CanDenyOrder(s: System, k: Kind) {
    exists steps :: UntimedRun(s, steps)
      && InState(UntimedEnd(s, steps).ledger, k, AmbiguousProvenNotAccepted)
      && k in UntimedEnd(s, steps).exchange.orders
  }

  lemma DenyOrderEarlier(s: System, step: Step, k: Kind)
    requires StepLegalUntimed(s, step) && CanDenyOrder(StepAfter(s, step), k)
    ensures CanDenyOrder(s, k)
  {
    var rest :| UntimedRun(StepAfter(s, step), rest)
      && InState(UntimedEnd(StepAfter(s, step), rest).ledger, k, AmbiguousProvenNotAccepted)
      && k in UntimedEnd(StepAfter(s, step), rest).exchange.orders;
    var steps := [step] + rest;
    assert steps[0] == step && steps[1..] == rest;
    assert UntimedRun(s, steps);
  }

  lemma {:induction false} DenyOrderBefore(s: System, steps: seq<Step>, k: Kind)
    requires Run(s, steps) && CanDenyOrder(RunEnd(s, steps), k)
    ensures CanDenyOrder(s, k)
    decreases |steps|
  {
    if steps != [] {
      DenyOrderBefore(StepAfter(s, steps[0]), steps[1..], k);
      DenyOrderEarlier(s, steps[0], k);
    }
  }

  lemma DeniedOrderNow(s: System, k: Kind)
    requires InState(s.ledger, k, AmbiguousProvenNotAccepted) && k in s.exchange.orders
    ensures CanDenyOrder(s, k)
  {
    assert UntimedRun(s, []);
  }

  lemma LateRequestProvenNotAccepted(s: System, k: Kind, first: AccountTruth, second: AccountTruth)
    requires k.Trade() && AwaitingProof(s, k) && Histories(s) && s.now <= first.observed
    requires k in s.exchange.inbox && k !in s.exchange.orders
    requires s.exchange.inbox[k].action.quantity >= 0.0 && s.exchange.inbox[k].action.quoteOrderQty >= 0.0
    requires s.exchange.inbox[k].visibleBy > second.observed
    requires QuietPair(s.ledger.rows[k], first, second, s.exchange)
    ensures CanDenyOrder(s, k)
  {
    UnseenWithoutOrder(first, s.exchange, k);
    UnseenWithoutOrder(second, s.exchange, k);
    TwoLooks(s, k, first, second);
    var looks := TwoLookSteps(s, k, first, second);
    var end := RunEnd(s, looks);
    DeniedOrderNow(StepAfter(end, Broker(Accept(k, 0))), k);
    DenyOrderEarlier(end, Broker(Accept(k, 0)), k);
    DenyOrderBefore(s, looks, k);
  }

  /**
    Without the timing assumption the proof fails for BUY and SELL too: from every reachable state in
    which the marker is committed, a process that is paused before it enters the transport lets the
    claim be proven not accepted and then become an order.
  */
  lemma LateSendProvenNotAccepted(
    s: System, k: Kind, truth: AccountTruth, first: AccountTruth, second: AccountTruth, visibleBy: real)
    requires Kept(s) && k.Trade() && s.position == Marked(k) && s.ledger.session.capability.Some?
    requires Fresh(s, truth, s.exchange) && s.now <= first.observed
    requires s.ledger.rows[k].action.quantity >= 0.0 && s.ledger.rows[k].action.quoteOrderQty >= 0.0
    requires QuietPair(s.ledger.rows[k].(updated := s.now), first, second, s.exchange)
    requires visibleBy > second.observed
    ensures CanDenyOrder(s, k)
  {
    assert KindTruthful(s, k);
    SendThenUnknown(s, k, truth, first, second, visibleBy);
  }

  /** The marked claim enters the transport late. */
  lemma SendThenUnknown(
    s: System, k: Kind, truth: AccountTruth, first: AccountTruth, second: AccountTruth, visibleBy: real)
    requires Histories(s) && k.Trade() && s.position == Marked(k) && s.ledger.session.capability.Some?
    requires InState(s.ledger, k, PostMayHaveCrossed) && s.ledger.rows[k].absenceCount == 0 && k !in s.exchange.orders
    requires Fresh(s, truth, s.exchange) && s.now <= first.observed
    requires s.ledger.rows[k].action.quantity >= 0.0 && s.ledger.rows[k].action.quoteOrderQty >= 0.0
    requires QuietPair(s.ledger.rows[k].(updated := s.now), first, second, s.exchange)
    requires visibleBy > second.observed
    ensures CanDenyOrder(s, k)
  {
    var send := Dispatch(Send(k, visibleBy), truth, s.exchange);
    var t := StepAfter(s, send);
    ExtendsReflexive(s.exchange);
    SnapshotsAgree(s.exchange, t.exchange);
    UnknownThenLate(t, k, truth, first, second, s.exchange);
    DenyOrderEarlier(s, send, k);
  }

  /** From the moment the late request is on its way. */
  lemma UnknownThenLate(t: System, k: Kind, truth: AccountTruth, first: AccountTruth, second: AccountTruth, seen: Exchange)
    requires k.Trade() && t.position == Sent(k) && t.ledger.session.capability.Some?
    requires Histories(t) && Fresh(t, truth, seen) && t.now <= first.observed
    requires InState(t.ledger, k, PostMayHaveCrossed) && t.ledger.rows[k].absenceCount == 0
    requires k in t.exchange.inbox && k !in t.exchange.orders && t.exchange.inbox[k].visibleBy > second.observed
    requires t.exchange.inbox[k].action.quantity >= 0.0 && t.exchange.inbox[k].action.quoteOrderQty >= 0.0
    requires QuietPair(t.ledger.rows[k].(updated := t.now), first, second, t.exchange)
    ensures CanDenyOrder(t, k)
  {
    ExtendsReflexive(seen);
    var unknown := Dispatch(OutcomeUnknown(k), truth, seen);
    var u := StepAfter(t, unknown);
    var fallback := Dispatch(Fallback, truth, seen);
    LateRequestProvenNotAccepted(StepAfter(u, fallback), k, first, second);
    DenyOrderEarlier(u, fallback, k);
    DenyOrderEarlier(t, unknown, k);
  }

  /** Requests on the way are invisible: truths and soundness do not depend on them. */
  lemma SnapshotsAgree(ex: Exchange, later: Exchange)
    requires later.orders == ex.orders && later.fills == ex.fills
    ensures Sound(ex) ==> Sound(later)
    ensures Extends(ex, later)
    ensures forall truth :: TruthOf(truth, ex) ==> TruthOf(truth, later)
  {}
}
