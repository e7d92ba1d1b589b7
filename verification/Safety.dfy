/**
  What the lane promises about money and orders, on every run of the protocol: any interleaving of
  service calls, fills, cancels, expiries, ambiguous sends and crashes.
*/
module ProtocolSafety {
  import opened FunctionalVocabulary
  import opened OwnerMetrics
  import opened DurableLedger
  import opened ExchangeModel
  import opened OrderProtocol
  import opened ProtocolInvariant
  import opened LedgerPreservation
  import opened SystemPreservation

  lemma Reached(start: System, steps: seq<Step>)
    requires Initial(start) && Run(start, steps)
    ensures Kept(RunEnd(start, steps))
  {
    InitialKept(start);
    RunKept(start, steps);
  }

  // ---- Baseline ------------------------------------------------------------------------------------

  /** No run ever takes the account's BTC below what it held when the session was sealed. */
  lemma BaselineNeverConsumed(start: System, steps: seq<Step>, opening: (real, real))
    requires Initial(start) && Run(start, steps)
    ensures var fills := RunEnd(start, steps).exchange.fills;
            && BookAll(opening, fills).0 >= opening.0
            && TallyFills(fills).sold <= TallyFills(fills).bought - TallyFills(fills).baseFees
  {
    Reached(start, steps);
    BooksMatchTally(opening, RunEnd(start, steps).exchange.fills);
  }

  // ---- Spend ---------------------------------------------------------------------------------------

  lemma {:induction false} BuyQuoteIsTheBuyOrder(fills: seq<Fill>)
    requires forall i :: 0 <= i < |fills| ==> HonestFill(fills[i])
    ensures TallyFills(fills).buyQuote == ExecutedQuote(fills, Buy)
  {
    if fills != [] { BuyQuoteIsTheBuyOrder(fills[..|fills| - 1]); }
  }

  /** At most one BUY ever enters the transport, and what it executes costs at most 10 USDT. */
  lemma SpendBound(start: System, steps: seq<Step>)
    requires Initial(start) && Run(start, steps)
    ensures var end := RunEnd(start, steps);
            end.sends[Buy] <= 1 && TallyFills(end.exchange.fills).buyQuote <= 10.0
  {
    Reached(start, steps);
    var end := RunEnd(start, steps);
    assert KindTruthful(end, Buy);
    BuyQuoteIsTheBuyOrder(end.exchange.fills);
    if Buy !in end.exchange.orders {
      forall i | 0 <= i < |end.exchange.fills| ensures end.exchange.fills[i].client != Owned(Buy) {}
      NothingExecuted(end.exchange.fills, Buy);
    }
  }

  // ---- Sends ---------------------------------------------------------------------------------------

  lemma {:induction false} SendsOnlyGrow(s: System, steps: seq<Step>, k: Kind)
    requires Run(s, steps)
    ensures s.sends[k] <= RunEnd(s, steps).sends[k]
    decreases |steps|
  {
    if steps != [] { SendsOnlyGrow(StepAfter(s, steps[0]), steps[1..], k); }
  }

  /**
    Every claim enters the transport at most once, and from then on its durable state never denies
    it: it is never again CLAIMED or SUBMITTING, and never NOT_SENT or PROVEN_NOT_ACCEPTED.
  */
  lemma SentAtMostOnceAndNeverDenied(start: System, before: seq<Step>, after: seq<Step>, k: Kind)
    requires Initial(start) && Run(start, before) && Run(RunEnd(start, before), after)
    ensures var mid := RunEnd(start, before);
            var end := RunEnd(mid, after);
            && end.sends[k] <= 1
            && (mid.sends[k] == 1 ==>
                  && k in end.ledger.rows && end.ledger.rows[k].postMarker.Some?
                  && !end.ledger.rows[k].state.Claimed? && !end.ledger.rows[k].state.Submitting?
                  && !end.ledger.rows[k].state.NotSent? && !end.ledger.rows[k].state.ProvenNotAccepted?)
  {
    Reached(start, before);
    RunKept(RunEnd(start, before), after);
    SendsOnlyGrow(RunEnd(start, before), after, k);
    assert KindTruthful(RunEnd(RunEnd(start, before), after), k);
  }

  // ---- Single in flight ------------------------------------------------------------------------------

  /** At most one BUY/SELL claim and one CANCEL claim are unfinished, and only such a claim has a working order. */
  lemma OneTradeInFlight(start: System, steps: seq<Step>, a: Kind, b: Kind)
    requires Initial(start) && Run(start, steps)
    ensures var end := RunEnd(start, steps);
            && SingleInFlight(end.ledger)
            && (a in end.exchange.orders && b in end.exchange.orders
                && !end.exchange.orders[a].status.Terminal() && !end.exchange.orders[b].status.Terminal()
                ==> a == b)
  {
    Reached(start, steps);
    var end := RunEnd(start, steps);
    if && a in end.exchange.orders && b in end.exchange.orders
       && !end.exchange.orders[a].status.Terminal() && !end.exchange.orders[b].status.Terminal()
    {
      UnfinishedOrder(end, a);
      UnfinishedOrder(end, b);
    }
  }

  lemma UnfinishedOrder(s: System, k: Kind)
    requires Kept(s) && k in s.exchange.orders && !s.exchange.orders[k].status.Terminal()
    ensures k.Trade() && k in s.ledger.rows && !s.ledger.rows[k].state.Terminal()
  {
    assert KindTruthful(s, k);
  }

  // ---- Cleanup slots -----------------------------------------------------------------------------------

  /** The cleanup slots taken when `k` was claimed, its own included. */
  function SlotsAtClaim(order: seq<Kind>, k: Kind): nat
    requires k in order
  {
    if order[|order| - 1] == k then CountCleanup(order) else
      assert order == order[..|order| - 1] + [order[|order| - 1]];
      SlotsAtClaim(order[..|order| - 1], k)
  }

  lemma {:induction false} SlotsUntouchedSince(order: seq<Kind>, k: Kind)
    requires k in order && NothingCleanedSince(order, k)
    ensures CountCleanup(order) == SlotsAtClaim(order, k)
  {
    var n := |order| - 1;
    if order[n] != k {
      assert order == order[..n] + [order[n]];
      var i :| 0 <= i < n && order[i] == k;
      SlotsUntouchedSince(order[..n], k);
    }
  }

  lemma {:induction false} SlotsAtPosition(order: seq<Kind>, k: Kind) returns (i: nat)
    requires k in order
    ensures i < |order| && order[i] == k && SlotsAtClaim(order, k) == CountCleanup(order[..i + 1])
  {
    var n := |order| - 1;
    if order[n] == k {
      i := n;
      assert order[..n + 1] == order;
    } else {
      assert order == order[..n] + [order[n]];
      i := SlotsAtPosition(order[..n], k);
      assert order[..n][..i + 1] == order[..i + 1];
    }
  }

  lemma ListedOrderIsUncanceled(s: System, truth: AccountTruth, seen: Exchange, k: Kind)
    requires Sound(seen) && Extends(s.seen, seen) && Extends(seen, s.exchange) && TruthOf(truth, seen)
    requires KindTruthful(s, k) && (k in s.exchange.orders ==> k.Trade())
    requires exists row :: row in truth.open && row.client == Owned(k)
    requires !TargetCanceled(s.ledger.rows, Some(k))
    ensures Uncanceled(s.ledger, k)
  {
    var row :| row in truth.open && row.client == Owned(k);
    assert row in truth.AllRows();
  }

  /**
    An owned order listed as open in the truth of a call, with no cancel claimed for it, finds exactly
    the slots its claim was made with.  So a slot is free for its cancel if and only if its claim left
    one, and a cleanup SELL always does.
  */
  lemma CancelSlotReserved(start: System, steps: seq<Step>, truth: AccountTruth, seen: Exchange, k: Kind)
    requires Initial(start) && Run(start, steps)
    requires Fresh(RunEnd(start, steps), truth, seen)
    requires exists row :: row in truth.open && row.client == Owned(k)
    requires !TargetCanceled(RunEnd(start, steps).ledger.rows, Some(k))
    ensures var L := RunEnd(start, steps).ledger;
            && CountCleanup(L.order) <= 12 && LastSlotForCancel(L)
            && k in L.order && k.Trade()
            && CountCleanup(L.order) == SlotsAtClaim(L.order, k)
            && (k.CleanupSell? ==> CountCleanup(L.order) < 12)
  {
    Reached(start, steps);
    var end := RunEnd(start, steps);
    assert KindTruthful(end, k);
    ListedOrderIsUncanceled(end, truth, seen, k);
    SlotsUntouchedSince(end.ledger.order, k);
    var i := SlotsAtPosition(end.ledger.order, k);
  }

  // ---- Natural legs first --------------------------------------------------------------------------------

  predicate ClaimsNatural(step: Step) { step.Service? && step.move.Claim? && step.move.action.kind.Natural() }

  predicate ClaimsCleanup(step: Step) { step.Service? && step.move.Claim? && step.move.action.kind.ForCleanup() }

  /** No natural leg is claimed after a cleanup action. */
  ghost predicate NaturalFirst(s: System, steps: seq<Step>)
    requires Run(s, steps)
    decreases |steps|
  {
    steps == [] ||
    (&& (ClaimsNatural(steps[0]) ==> CountCleanup(s.ledger.order) == 0)
     && NaturalFirst(StepAfter(s, steps[0]), steps[1..]))
  }

  /** Every natural leg was claimed with all slots free. */
  ghost predicate AllSlotsFree(order: seq<Kind>) {
    forall k :: k in order && k.Natural() ==> SlotsAtClaim(order, k) == 0
  }

  lemma AllSlotsFreeAppend(order: seq<Kind>, k: Kind)
    requires AllSlotsFree(order) && (k.Natural() ==> CountCleanup(order) == 0)
    ensures AllSlotsFree(order + [k])
  {
    CountsAppend(order, k);
    forall m | m in order + [k] && m.Natural() ensures SlotsAtClaim(order + [k], m) == 0 { SlotsAppend(order, k, m); }
  }

  lemma SlotsAppend(order: seq<Kind>, k: Kind, m: Kind)
    requires m in order + [k]
    ensures m == k ==> SlotsAtClaim(order + [k], m) == CountCleanup(order + [k])
    ensures m != k ==> m in order && SlotsAtClaim(order + [k], m) == SlotsAtClaim(order, m)
  {
    assert (order + [k])[..|order|] == order;
  }

  lemma MoveOrder(L: Ledger, m: Move, truth: AccountTruth, now: real)
    requires MoveLegal(L, m, truth, now)
    ensures MoveAfter(L, m, truth, now).order == (if m.Claim? then L.order + [m.action.kind] else L.order)
  {}

  lemma DispatchOrder(s: System, m: DispatchMove, truth: AccountTruth)
    requires DispatchLegal(s, m, truth)
    ensures DispatchAfter(s, m, truth).ledger.order == s.ledger.order
  {}

  /** Only a claim changes the list of claims. */
  lemma OrderAfter(s: System, step: Step)
    requires StepLegal(s, step)
    ensures StepAfter(s, step).ledger.order ==
              (if step.Service? && step.move.Claim? then s.ledger.order + [step.move.action.kind] else s.ledger.order)
  {
    match step
    case Service(m, truth, _) => MoveOrder(s.ledger, m, truth, s.now);
    case Dispatch(m, truth, _) => DispatchOrder(s, m, truth);
    case _ =>
  }

  /** On a run that claims no natural leg after a cleanup action, every natural leg finds all slots free. */
  lemma {:induction false} NaturalFirstKeepsSlots(s: System, steps: seq<Step>)
    requires AllSlotsFree(s.ledger.order) && Run(s, steps) && NaturalFirst(s, steps)
    ensures AllSlotsFree(RunEnd(s, steps).ledger.order)
    decreases |steps|
  {
    if steps != [] {
      OrderAfter(s, steps[0]);
      if steps[0].Service? && steps[0].move.Claim? { AllSlotsFreeAppend(s.ledger.order, steps[0].move.action.kind); }
      NaturalFirstKeepsSlots(StepAfter(s, steps[0]), steps[1..]);
    }
  }

  /** The order in which a one-way control lets legs be claimed: natural ones, and from some step on cleanup only. */
  predicate OneWay(steps: seq<Step>, switch: nat)
    requires switch <= |steps|
  {
    && (forall i :: 0 <= i < switch ==> !ClaimsCleanup(steps[i]))
    && (forall i :: switch <= i < |steps| ==> !ClaimsNatural(steps[i]))
  }

  lemma {:induction false} OneWayIsNaturalFirst(s: System, steps: seq<Step>, switch: nat)
    requires Run(s, steps) && switch <= |steps| && OneWay(steps, switch)
    requires switch > 0 ==> CountCleanup(s.ledger.order) == 0
    ensures NaturalFirst(s, steps)
    decreases |steps|
  {
    if steps != [] {
      OrderAfter(s, steps[0]);
      if steps[0].Service? && steps[0].move.Claim? { CountsAppend(s.ledger.order, steps[0].move.action.kind); }
      OneWayIsNaturalFirst(StepAfter(s, steps[0]), steps[1..], if switch > 0 then switch - 1 else 0);
    }
  }

  /** No cleanup action is claimed while the session is RUNNING. */
  ghost predicate CleansOutOfRunning(s: System, steps: seq<Step>)
    requires Run(s, steps)
    decreases |steps|
  {
    steps == [] ||
    (&& (ClaimsCleanup(steps[0]) ==> !s.ledger.session.state.Running?)
     && CleansOutOfRunning(StepAfter(s, steps[0]), steps[1..]))
  }

  ghost predicate CleanWhileRunning(L: Ledger) { L.session.state.Running? ==> CountCleanup(L.order) == 0 }

  lemma CleanWhileRunningStep(s: System, step: Step)
    requires Kept(s) && CleanWhileRunning(s.ledger) && StepLegal(s, step)
    requires ClaimsCleanup(step) ==> !s.ledger.session.state.Running?
    ensures CleanWhileRunning(StepAfter(s, step).ledger)
  {
    match step
    case Service(m, truth, seen) =>
      if m.Claim? {
        CountsAppend(s.ledger.order, m.action.kind);
      } else {
        MoveQuieter(s.ledger, m, truth, s.now);
      }
    case Dispatch(m, truth, seen) => DispatchQuieter(s, m, truth);
    case _ =>
  }

  /** A session never returns to RUNNING, so a run that cleans only out of RUNNING claims its natural legs first. */
  lemma {:induction false} CleaningLateIsNaturalFirst(s: System, steps: seq<Step>)
    requires Kept(s) && CleanWhileRunning(s.ledger) && Run(s, steps) && CleansOutOfRunning(s, steps)
    ensures NaturalFirst(s, steps)
    decreases |steps|
  {
    if steps != [] {
      StepKept(s, steps[0]);
      CleanWhileRunningStep(s, steps[0]);
      CleaningLateIsNaturalFirst(StepAfter(s, steps[0]), steps[1..]);
    }
  }

  // ---- Finality ------------------------------------------------------------------------------------------

  /**
    The owner's recovery write has no guard of its own, and the state it writes is right exactly when
    the session is not sealed yet.  Written over a seal it would strand the session: evidence without a
    final state, and no ledger transaction that still applies to it.
  */
  lemma LateRecoveryStrands(L: Ledger, m: Move, truth: AccountTruth, now: real)
    requires FinalSealed(L)
    ensures FinalSealed(WithSessionState(L, CleanupOnly, true)) <==> !L.session.state.Final()
    ensures L.session.state.Final() ==> !MoveLegal(WithSessionState(L, CleanupOnly, true), m, truth, now)
  {}


  lemma FinalMove(L: Ledger, m: Move, truth: AccountTruth, now: real)
    requires FinalSealed(L) && L.session.state.Final() && MoveLegal(L, m, truth, now)
    ensures m.CommitFinal? && L.session.state.FinalPrepared?
  {}

  /** In particular the unguarded write of the failure path finds no final session: no claim is left to dispatch. */
  lemma FinalDispatch(s: System, m: DispatchMove, truth: AccountTruth)
    requires FinalSealed(s.ledger) && s.ledger.session.state.Final() && PositionTruthful(s)
    ensures !DispatchLegal(s, m, truth)
  {
    if DispatchLegal(s, m, truth) && !m.Fallback? { UnfinishedIsNotFinal(s.ledger, m.kind); }
  }

  lemma FinalStep(s: System, step: Step)
    requires Kept(s) && s.ledger.session.state.Final() && StepLegal(s, step)
    ensures var t := StepAfter(s, step);
            && t.ledger.session.state.Final()
            && t.ledger == s.ledger.(session := s.ledger.session.(state := t.ledger.session.state))
  {
    match step
    case Service(m, truth, seen) => FinalMove(s.ledger, m, truth, s.now);
    case Dispatch(m, truth, seen) => FinalDispatch(s, m, truth);
    case _ =>
  }

  /**
    Once a session is FINAL_PREPARED, FINALIZED or FAILED no step reopens it: evidence, capability,
    every claim and every evaluation stay as sealed -- although the dispatch failure path writes
    CLEANUP without looking at the state it overwrites.
  */
  lemma {:induction false} FinalStaysFinal(s: System, steps: seq<Step>)
    requires Kept(s) && s.ledger.session.state.Final() && Run(s, steps)
    ensures var end := RunEnd(s, steps).ledger;
            && end.session.state.Final() && end.session.capability == None
            && end.session.evidence == s.ledger.session.evidence && end.session.evidence.Some?
            && end.rows == s.ledger.rows && end.evaluations == s.ledger.evaluations && end.order == s.ledger.order
    decreases |steps|
  {
    if steps != [] {
      StepKept(s, steps[0]);
      FinalStep(s, steps[0]);
      FinalStaysFinal(StepAfter(s, steps[0]), steps[1..]);
    }
  }

  lemma FinalFreezesAccountStep(s: System, step: Step)
    requires FinalSealed(s.ledger) && s.ledger.session.state.Final() && StepLegal(s, step)
    requires Extends(s.seen, s.exchange) && (forall k: Kind :: KindTruthful(s, k))
    ensures StepAfter(s, step).exchange.fills == s.exchange.fills
  {
    if step.Broker? && step.broker.Execute? {
      assert KindTruthful(s, step.broker.fill.client.kind);
      FilledClaimIsOpen(s, step.broker.fill);
    }
  }

  /** A sealed session's account no longer moves: not one owned fill can follow the seal. */
  lemma {:induction false} FinalFreezesAccount(s: System, steps: seq<Step>)
    requires Kept(s) && s.ledger.session.state.Final() && Run(s, steps)
    ensures RunEnd(s, steps).exchange.fills == s.exchange.fills
    decreases |steps|
  {
    if steps != [] {
      StepKept(s, steps[0]);
      FinalStep(s, steps[0]);
      FinalFreezesAccountStep(s, steps[0]);
      FinalFreezesAccount(StepAfter(s, steps[0]), steps[1..]);
    }
  }

  // ---- Delayed nonacceptance ---------------------------------------------------------------------------

  /** No service move and no dispatch move touches a terminal claim. */
  lemma TerminalMove(L: Ledger, m: Move, truth: AccountTruth, now: real, k: Kind)
    requires MoveLegal(L, m, truth, now) && k in L.rows && L.rows[k].state.Terminal()
    ensures k in MoveAfter(L, m, truth, now).rows && MoveAfter(L, m, truth, now).rows[k] == L.rows[k]
  {}

  lemma TerminalDispatch(s: System, m: DispatchMove, truth: AccountTruth, k: Kind)
    requires DispatchLegal(s, m, truth) && k in s.ledger.rows && s.ledger.rows[k].state.Terminal()
    ensures k in DispatchAfter(s, m, truth).ledger.rows && DispatchAfter(s, m, truth).ledger.rows[k] == s.ledger.rows[k]
  {}

  lemma TerminalStep(s: System, step: Step, k: Kind)
    requires StepLegal(s, step) && k in s.ledger.rows && s.ledger.rows[k].state.Terminal()
    ensures k in StepAfter(s, step).ledger.rows && StepAfter(s, step).ledger.rows[k] == s.ledger.rows[k]
  {
    match step
    case Service(m, truth, seen) => TerminalMove(s.ledger, m, truth, s.now, k);
    case Dispatch(m, truth, seen) => TerminalDispatch(s, m, truth, k);
    case _ =>
  }

  lemma {:induction false} TerminalClaimStays(s: System, steps: seq<Step>, k: Kind)
    requires Run(s, steps)
    requires k in s.ledger.rows && s.ledger.rows[k].state.Terminal()
    ensures var end := RunEnd(s, steps); k in end.ledger.rows && end.ledger.rows[k] == s.ledger.rows[k]
    decreases |steps|
  {
    if steps != [] {
      TerminalStep(s, steps[0], k);
      TerminalClaimStays(StepAfter(s, steps[0]), steps[1..], k);
    }
  }

  /**
    A claim terminalized as nonaccepted carries exactly two observations, at least 5 s apart and the
    first at least 60 s after its last durable change, both with the balances sealed before the POST and
    neither order nor fill -- and it is not, and on no continuation becomes, an exchange order.
  */
  lemma NonacceptanceIsSound(start: System, before: seq<Step>, after: seq<Step>, k: Kind)
    requires Initial(start) && Run(start, before) && Run(RunEnd(start, before), after)
    requires InState(RunEnd(start, before).ledger, k, AmbiguousProvenNotAccepted)
    ensures var row := RunEnd(start, before).ledger.rows[k];
            row.absenceCount == 2 && TwoObservations(row, k)
    ensures k !in RunEnd(RunEnd(start, before), after).exchange.orders
  {
    Reached(start, before);
    var mid := RunEnd(start, before);
    RunKept(mid, after);
    TerminalClaimStays(mid, after, k);
    assert AbsenceTruthful(mid.ledger.rows[k], k);
    assert KindTruthful(RunEnd(mid, after), k);
  }

  // ---- Bookkeeping -----------------------------------------------------------------------------------------

  /**
    Flags and counters equal the rows, cleanup generations are 1..n and 1..m, cancel targets are
    distinct, evaluations have increasing bar closes, and a natural SELL follows the BUY on a
    strictly later bar.
  */
  lemma BooksAreExact(start: System, steps: seq<Step>)
    requires Initial(start) && Run(start, steps)
    ensures var L := RunEnd(start, steps).ledger; Bookkeeping(L) && CancelTargets(L) && Bars(L)
  {
    Reached(start, steps);
  }
}
