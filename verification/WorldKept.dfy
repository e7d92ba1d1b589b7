/** Every step of the whole system keeps what the ledger says about the exchange. */
module SystemPreservation {
  import opened FunctionalVocabulary
  import opened OwnerMetrics
  import opened DurableLedger
  import opened ExchangeModel
  import opened OrderProtocol
  import opened ProtocolInvariant
  import opened LedgerPreservation

  // ---- Quiet ledger changes ---------------------------------------------------------------------

  /** Same rows and order, no row reopened, RUNNING not restored. */
  predicate Quieter(L: Ledger, M: Ledger) {
    && M.order == L.order && M.rows.Keys == L.rows.Keys
    && (forall k :: k in L.rows ==> M.rows[k].action == L.rows[k].action)
    && (forall k :: k in L.rows && L.rows[k].state.Terminal() ==> M.rows[k].state.Terminal())
    && (M.session.state.Running? ==> L.session.state.Running?)
  }

  lemma QuieterSlots(L: Ledger, M: Ledger)
    requires SlotsUntouched(L) && Quieter(L, M)
    ensures SlotsUntouched(M)
  {
    assert forall k :: Uncanceled(M, k) ==> k in L.rows && Uncanceled(L, k);
  }

  /** Every service move but a claim is quiet. */
  lemma MoveQuieter(L: Ledger, m: Move, truth: AccountTruth, now: real)
    requires FinalSealed(L) && MoveLegal(L, m, truth, now) && !m.Claim?
    ensures Quieter(L, MoveAfter(L, m, truth, now))
  {
    assert MoveAfter(L, m, truth, now).rows.Keys == L.rows.Keys;
  }

  /** Every dispatch move is quiet and adds no fill. */
  lemma DispatchQuieter(s: System, m: DispatchMove, truth: AccountTruth)
    requires PositionTruthful(s) && DispatchLegal(s, m, truth)
    ensures Quieter(s.ledger, DispatchAfter(s, m, truth).ledger)
    ensures DispatchAfter(s, m, truth).exchange.fills == s.exchange.fills
  {
    assert DispatchAfter(s, m, truth).ledger.rows.Keys == s.ledger.rows.Keys;
  }

  lemma QuieterSolvent(s: System, t: System)
    requires Solvent(s) && Quieter(s.ledger, t.ledger) && t.exchange.fills == s.exchange.fills
    ensures Solvent(t)
  {
    assert forall k :: k in t.ledger.rows ==> k in s.ledger.rows;
  }

  /** Nothing that concerns this kind changed, except that a newer snapshot was seen. */
  ghost predicate Untouched(s: System, t: System, k: Kind) {
    && (k in t.ledger.rows <==> k in s.ledger.rows)
    && (k in s.ledger.rows ==> t.ledger.rows[k] == s.ledger.rows[k])
    && t.exchange.orders == s.exchange.orders
    && (k in t.exchange.inbox <==> k in s.exchange.inbox)
    && (k in s.exchange.inbox ==> t.exchange.inbox[k] == s.exchange.inbox[k])
    && t.sends[k] == s.sends[k] && t.now == s.now
    && Extends(s.seen, t.seen)
  }

  lemma UntouchedKind(s: System, t: System, k: Kind)
    requires KindTruthful(s, k) && Untouched(s, t, k)
    ensures KindTruthful(t, k)
  {
    if k in s.ledger.rows { assert StateTruthful(t, k); }
  }

  // ---- Service moves ---------------------------------------------------------------------------

  lemma SeenTerminalIsReal(truth: AccountTruth, seen: Exchange, k: Kind)
    requires TruthOf(truth, seen) && SeenTerminal(truth, k)
    ensures k in seen.orders && seen.orders[k].status.Terminal()
  {
    var row :| row in truth.AllRows() && row.client == Owned(k) && row.status.Terminal();
  }

  /** A claim missing from a truth taken after its horizon is not an order and never will be. */
  lemma UnseenIsGone(s: System, truth: AccountTruth, seen: Exchange, k: Kind)
    requires Fresh(s, truth, seen) && Unseen(truth, k)
    requires k in s.ledger.rows && HorizonCovered(s, k)
    requires s.ledger.rows[k].absenceCount == 0 ==> truth.observed - s.ledger.rows[k].updated >= NONACCEPTANCE_MIN_AGE
    ensures Gone(s, k)
  {
    if s.ledger.rows[k].absenceCount == 0 && k in s.exchange.orders {
      assert false;
    }
  }

  lemma ReconciledRow(s: System, truth: AccountTruth, seen: Exchange, k: Kind)
    requires KindTruthful(s, k) && StepLegal(s, Service(Reconcile(k), truth, seen))
    ensures StateTruthful(StepAfter(s, Service(Reconcile(k), truth, seen)), k)
  {
    if k.Trade() { SeenTerminalIsReal(truth, seen, k); }
  }

  lemma ObservedRow(s: System, truth: AccountTruth, seen: Exchange, k: Kind, query: OrderQuery)
    requires KindTruthful(s, k) && StepLegal(s, Service(ObserveAbsence(k, query), truth, seen))
    ensures StateTruthful(StepAfter(s, Service(ObserveAbsence(k, query), truth, seen)), k)
  {
    UnseenIsGone(s, truth, seen, k);
    assert Gone(StepAfter(s, Service(ObserveAbsence(k, query), truth, seen)), k);
  }

  lemma ServiceMoveRow(s: System, m: Move, truth: AccountTruth, seen: Exchange, k: Kind)
    requires KindTruthful(s, k) && k in s.ledger.rows
    requires StepLegal(s, Service(m, truth, seen))
    ensures StateTruthful(StepAfter(s, Service(m, truth, seen)), k)
  {
    if m == Reconcile(k) {
      ReconciledRow(s, truth, seen, k);
    } else if m.ObserveAbsence? && m.kind == k {
      ObservedRow(s, truth, seen, k, m.query);
    } else if m != ProveNotSent(k) {
      UntouchedKind(s, StepAfter(s, Service(m, truth, seen)), k);
    }
  }

  lemma ServiceKind(s: System, m: Move, truth: AccountTruth, seen: Exchange, k: Kind)
    requires KindTruthful(s, k)
    requires StepLegal(s, Service(m, truth, seen))
    ensures KindTruthful(StepAfter(s, Service(m, truth, seen)), k)
  {
    if k in s.ledger.rows {
      ServiceMoveRow(s, m, truth, seen, k);
    }
  }

  /** With every claim terminal, every order the exchange ever accepted is finished in the snapshot. */
  lemma TerminalClaimsFreezeFills(s: System, seen: Exchange)
    requires AllTerminal(s.ledger) && Histories(s)
    requires forall k: Kind :: KindTruthful(s, k)
    requires Sound(seen) && Extends(s.seen, seen) && Extends(seen, s.exchange)
    ensures s.exchange.fills == seen.fills
  {
    forall k | k in s.exchange.orders ensures k in seen.orders && seen.orders[k].status.Terminal() {
      assert KindTruthful(s, k);
      assert k.Trade();
    }
    FillsComplete(seen, s.exchange);
  }

  lemma NoOrderNothingExecuted(s: System, k: Kind)
    requires Histories(s) && KindTruthful(s, k) && k !in s.ledger.rows
    ensures Executed(s.exchange.fills, k) == 0.0
  {
    forall i | 0 <= i < |s.exchange.fills| ensures s.exchange.fills[i].client != Owned(k) {}
    NothingExecuted(s.exchange.fills, k);
  }

  /** What is left to sell under a SELL claim is owned. */
  ghost predicate Covered(s: System, a: SealedAction) {
    a.quantity - Executed(s.exchange.fills, a.kind) <= OwnedQuantity(s.exchange.fills)
  }

  /** With nothing unfinished, what the truth says is owned is owned. */
  lemma OwnedWhenSettled(s: System, truth: AccountTruth, seen: Exchange)
    requires AllTerminal(s.ledger) && Histories(s) && (forall k: Kind :: KindTruthful(s, k))
    requires Sound(seen) && Extends(s.seen, seen) && Extends(seen, s.exchange) && TruthOf(truth, seen)
    ensures OwnedQuantity(s.exchange.fills) == OwnedQuantity(truth.fills)
  {
    TerminalClaimsFreezeFills(s, seen);
    TruthOwnedQuantity(truth, seen);
  }

  lemma SellIsClaimedSettled(L: Ledger, a: SealedAction, truth: AccountTruth, now: real)
    requires ClaimJustified(L, a, truth, now) && a.kind.Sells()
    ensures AllTerminal(L) && a.kind !in L.rows && a.quantity <= OwnedQuantity(truth.fills)
  {}

  lemma ClaimStep(s: System, a: SealedAction, truth: AccountTruth, seen: Exchange)
    requires StepLegal(s, Service(Claim(a), truth, seen))
    ensures ClaimJustified(s.ledger, a, truth, s.now)
    ensures Sound(seen) && Extends(s.seen, seen) && Extends(seen, s.exchange) && TruthOf(truth, seen)
  {}

  lemma ClaimedSellIsCovered(s: System, a: SealedAction, truth: AccountTruth, seen: Exchange)
    requires Kept(s) && StepLegal(s, Service(Claim(a), truth, seen)) && a.kind.Sells()
    ensures Covered(s, a)
  {
    ClaimStep(s, a, truth, seen);
    SellIsClaimedSettled(s.ledger, a, truth, s.now);
    OwnedWhenSettled(s, truth, seen);
    assert KindTruthful(s, a.kind);
    NoOrderNothingExecuted(s, a.kind);
  }

  lemma ServiceSolvent(s: System, m: Move, truth: AccountTruth, seen: Exchange)
    requires Kept(s) && StepLegal(s, Service(m, truth, seen))
    ensures Solvent(StepAfter(s, Service(m, truth, seen)))
  {
    if m.Claim? {
      if m.action.kind.Sells() { ClaimedSellIsCovered(s, m.action, truth, seen); }
    } else {
      MoveQuieter(s.ledger, m, truth, s.now);
      QuieterSolvent(s, StepAfter(s, Service(m, truth, seen)));
    }
  }

  /** A claim leaves no older trade both unfinished and uncanceled. */
  lemma ClaimSlots(L: Ledger, a: SealedAction, truth: AccountTruth, now: real)
    requires OrderListsRows(L) && SlotsUntouched(L) && ClaimJustified(L, a, truth, now)
    ensures SlotsUntouched(MoveAfterClaim(L, a, truth, now))
  {
    var M := MoveAfterClaim(L, a, truth, now);
    forall k | Uncanceled(M, k) ensures NothingCleanedSince(M.order, k) {
      assert k == a.kind;
    }
  }

  lemma MoveSlots(L: Ledger, m: Move, truth: AccountTruth, now: real)
    requires OrderListsRows(L) && FinalSealed(L) && SlotsUntouched(L) && MoveLegal(L, m, truth, now)
    ensures SlotsUntouched(MoveAfter(L, m, truth, now))
  {
    if m.Claim? {
      ClaimSlots(L, m.action, truth, now);
    } else {
      MoveQuieter(L, m, truth, now);
      QuieterSlots(L, MoveAfter(L, m, truth, now));
    }
  }

  lemma WorkingOrderIsTrade(truth: AccountTruth, seen: Exchange, a: SealedAction)
    requires TruthOf(truth, seen) && Sound(seen)
    requires a.kind.Cancel? ==> a.target.Some? && SeenWorking(truth, a.target.value, a.targetOrderId)
    ensures CancelsTrade(a)
  {
    if a.kind.Cancel? {
      var row :| row in truth.open && row.client == Owned(a.target.value) && row.orderId == a.targetOrderId;
      assert row in truth.AllRows();
    }
  }

  lemma ServiceKept(s: System, m: Move, truth: AccountTruth, seen: Exchange)
    requires Kept(s) && StepLegal(s, Service(m, truth, seen))
    ensures Kept(StepAfter(s, Service(m, truth, seen)))
  {
    var t := StepAfter(s, Service(m, truth, seen));
    if m.Claim? { WorkingOrderIsTrade(truth, seen, m.action); }
    MoveKept(s.ledger, m, truth, s.now);
    MoveSlots(s.ledger, m, truth, s.now);
    forall k: Kind ensures KindTruthful(t, k) { ServiceKind(s, m, truth, seen, k); }
    ServiceSolvent(s, m, truth, seen);
  }

  // ---- Dispatch moves ----------------------------------------------------------------------------

  lemma UnfinishedIsNotFinal(L: Ledger, k: Kind)
    requires FinalSealed(L) && k in L.rows && !L.rows[k].state.Terminal()
    ensures !L.session.state.Final()
  {}

  /** The state changes a dispatch makes. */
  predicate Advances(from: ActionState, to: ActionState) {
    || (from.Claimed? && (to.Submitting? || to.NotSent?))
    || (from.Submitting? && to.NotSent?)
    || (from.PostMayHaveCrossed? && (to.ReconciliationRequired? || to.Acknowledged?))
  }

  lemma AdvanceKept(L: Ledger, k: Kind, to: ActionState, now: real)
    requires LedgerKept(L) && k in L.rows && Advances(L.rows[k].state, to)
    requires L.rows[k].state.PostMayHaveCrossed? ==> L.rows[k].absenceCount == 0 && L.rows[k].updated <= now
    ensures LedgerKept(WithTransition(L, k, to, now))
  {
    RowChangeKept(L, k, L.rows[k].(state := to, updated := now));
  }

  lemma MarkerKept(L: Ledger, k: Kind, now: real)
    requires LedgerKept(L) && MarkAllowed(L, k)
    ensures LedgerKept(WithMarker(L, k, now))
  {
    RowChangeKept(L, k, L.rows[k].(state := PostMayHaveCrossed, postMarker := Some(now), updated := now));
  }

  lemma DispatchLedgerKept(s: System, m: DispatchMove, truth: AccountTruth)
    requires LedgerKept(s.ledger) && PositionTruthful(s) && DispatchLegal(s, m, truth)
    requires m.OutcomeUnknown? || m.Acknowledge? ==> KindTruthful(s, m.kind)
    ensures LedgerKept(DispatchAfter(s, m, truth).ledger)
  {
    match m
    case Open(k) => AdvanceKept(s.ledger, k, Submitting, s.now);
    case Refuse(k) => AdvanceKept(s.ledger, k, NotSent, s.now);
    case Fallback => RestateKept(s.ledger, s.position.state, false);
    case Withdraw(k) => AdvanceKept(s.ledger, k, NotSent, s.now);
    case Mark(k) => MarkerKept(s.ledger, k, s.now);
    case Send(k, _) =>
    case OutcomeUnknown(k) => AdvanceKept(s.ledger, k, ReconciliationRequired, s.now);
    case Acknowledge(k) => AdvanceKept(s.ledger, k, Acknowledged, s.now);
  }

  lemma DispatchPosition(s: System, m: DispatchMove, truth: AccountTruth)
    requires PositionTruthful(s) && DispatchLegal(s, m, truth)
    requires FinalSealed(s.ledger) && RowsTruthful(s.ledger)
    requires forall k: Kind :: KindTruthful(s, k)
    ensures PositionTruthful(DispatchAfter(s, m, truth))
  {
    if !m.Fallback? {
      assert KindTruthful(s, m.kind);
      UnfinishedIsNotFinal(s.ledger, m.kind);
    }
  }

  /** The kind a dispatch works on, move by move. */
  lemma DispatchedKind(s: System, m: DispatchMove, truth: AccountTruth, seen: Exchange)
    requires !m.Fallback? && KindTruthful(s, m.kind) && PositionTruthful(s) && RowsTruthful(s.ledger)
    requires StepLegal(s, Dispatch(m, truth, seen))
    ensures KindTruthful(StepAfter(s, Dispatch(m, truth, seen)), m.kind)
  {
    var k := m.kind;
    var t := StepAfter(s, Dispatch(m, truth, seen));
    if m.Send? {
      assert t.sends[k] == 1 && t.exchange.inbox[k].action == t.ledger.rows[k].action;
      assert HorizonCovered(t, k);
    } else {
      assert t.sends == s.sends && t.exchange == s.exchange;
      assert StateTruthful(t, k);
    }
  }

  lemma DispatchKind(s: System, m: DispatchMove, truth: AccountTruth, seen: Exchange, k: Kind)
    requires KindTruthful(s, k) && PositionTruthful(s) && RowsTruthful(s.ledger)
    requires StepLegal(s, Dispatch(m, truth, seen))
    ensures KindTruthful(StepAfter(s, Dispatch(m, truth, seen)), k)
  {
    if !m.Fallback? && m.kind == k {
      DispatchedKind(s, m, truth, seen);
    } else {
      OtherKind(s, m, truth, seen, k);
    }
  }

  lemma OtherKind(s: System, m: DispatchMove, truth: AccountTruth, seen: Exchange, k: Kind)
    requires KindTruthful(s, k) && (m.Fallback? || m.kind != k)
    requires StepLegal(s, Dispatch(m, truth, seen))
    ensures KindTruthful(StepAfter(s, Dispatch(m, truth, seen)), k)
  {
    UntouchedKind(s, StepAfter(s, Dispatch(m, truth, seen)), k);
  }

  lemma DispatchSlots(s: System, m: DispatchMove, truth: AccountTruth)
    requires SlotsUntouched(s.ledger) && PositionTruthful(s) && DispatchLegal(s, m, truth)
    ensures SlotsUntouched(DispatchAfter(s, m, truth).ledger)
  {
    DispatchQuieter(s, m, truth);
    QuieterSlots(s.ledger, DispatchAfter(s, m, truth).ledger);
  }

  lemma DispatchSolvent(s: System, m: DispatchMove, truth: AccountTruth)
    requires Solvent(s) && PositionTruthful(s) && DispatchLegal(s, m, truth)
    ensures Solvent(DispatchAfter(s, m, truth))
  {
    DispatchQuieter(s, m, truth);
    QuieterSolvent(s, DispatchAfter(s, m, truth));
  }

  lemma DispatchKinds(s: System, m: DispatchMove, truth: AccountTruth, seen: Exchange)
    requires PositionTruthful(s) && RowsTruthful(s.ledger) && (forall k: Kind :: KindTruthful(s, k))
    requires StepLegal(s, Dispatch(m, truth, seen))
    ensures forall k: Kind :: KindTruthful(StepAfter(s, Dispatch(m, truth, seen)), k)
  {
    forall k: Kind ensures KindTruthful(StepAfter(s, Dispatch(m, truth, seen)), k) {
      DispatchKind(s, m, truth, seen, k);
    }
  }

  /** Only the inbox changes on the exchange side, and the truth behind the call is the newest seen. */
  lemma DispatchHistories(s: System, m: DispatchMove, truth: AccountTruth, seen: Exchange)
    requires Histories(s) && StepLegal(s, Dispatch(m, truth, seen))
    ensures Histories(StepAfter(s, Dispatch(m, truth, seen)))
  {
  }

  lemma DispatchKept(s: System, m: DispatchMove, truth: AccountTruth, seen: Exchange)
    requires Kept(s) && StepLegal(s, Dispatch(m, truth, seen))
    ensures Kept(StepAfter(s, Dispatch(m, truth, seen)))
  {
    if m.OutcomeUnknown? || m.Acknowledge? { assert KindTruthful(s, m.kind); }
    DispatchLedgerKept(s, m, truth);
    DispatchPosition(s, m, truth);
    DispatchSlots(s, m, truth);
    DispatchKinds(s, m, truth, seen);
    DispatchHistories(s, m, truth, seen);
    DispatchSolvent(s, m, truth);
    SeenIsUnread(DispatchAfter(s, m, truth), seen);
  }

  /** These concerns do not look at the snapshot. */
  lemma SeenIsUnread(t: System, seen: Exchange)
    ensures PositionTruthful(t) <==> PositionTruthful(t.(seen := seen))
    ensures Solvent(t) <==> Solvent(t.(seen := seen))
  {}

  // ---- Broker, clock and crash ---------------------------------------------------------------------

  lemma BrokerKind(s: System, m: BrokerMove, k: Kind)
    requires KindTruthful(s, k) && BrokerLegal(s.exchange, m, s.now)
    ensures KindTruthful(StepAfter(s, Broker(m)), k)
  {
  }

  /** Only an order whose claim is still open can be filled. */
  lemma FilledClaimIsOpen(s: System, f: Fill)
    requires BrokerLegal(s.exchange, Execute(f), s.now)
    requires KindTruthful(s, f.client.kind) && Extends(s.seen, s.exchange)
    ensures f.client.kind in s.ledger.rows && !s.ledger.rows[f.client.kind].state.Terminal()
    ensures s.exchange.orders[f.client.kind].action == s.ledger.rows[f.client.kind].action
  {}

  lemma FillEffect(fills: seq<Fill>, f: Fill)
    requires HonestFill(f)
    ensures f.side.BuySide? ==> OwnedQuantity(fills + [f]) >= OwnedQuantity(fills)
    ensures f.side.SellSide? ==> OwnedQuantity(fills + [f]) == OwnedQuantity(fills) - f.quantity
  {
    TallyAppend(fills, f);
  }

  /** A fill moves owned and remaining quantity together, and only one SELL can be remaining. */
  lemma FillSolvent(s: System, f: Fill)
    requires Solvent(s) && SingleInFlight(s.ledger) && HonestFill(f)
    requires var k := f.client.kind;
             && k in s.ledger.rows && !s.ledger.rows[k].state.Terminal()
             && WithinRequest(s.ledger.rows[k].action, s.exchange.fills + [f])
             && s.ledger.rows[k].action.kind == k
    ensures Solvent(s.(exchange := s.exchange.(fills := s.exchange.fills + [f])))
  {
    FillEffect(s.exchange.fills, f);
    ExecutedAppend(s.exchange.fills, f, f.client.kind);
    forall r | r in s.ledger.rows && r.Sells() && !s.ledger.rows[r].state.Terminal()
      ensures s.ledger.rows[r].action.quantity - Executed(s.exchange.fills + [f], r) <= OwnedQuantity(s.exchange.fills + [f])
    {
      ExecutedAppend(s.exchange.fills, f, r);
    }
  }

  lemma BrokerSolvent(s: System, m: BrokerMove)
    requires Kept(s) && BrokerLegal(s.exchange, m, s.now)
    ensures Solvent(StepAfter(s, Broker(m)))
  {
    if m.Execute? {
      assert KindTruthful(s, m.fill.client.kind);
      FilledClaimIsOpen(s, m.fill);
      FillSolvent(s, m.fill);
    }
  }

  lemma BrokerKept(s: System, m: BrokerMove)
    requires Kept(s) && BrokerLegal(s.exchange, m, s.now)
    ensures Kept(StepAfter(s, Broker(m)))
  {
    var t := StepAfter(s, Broker(m));
    forall k: Kind ensures KindTruthful(t, k) { BrokerKind(s, m, k); }
    forall k | k in s.exchange.inbox ensures s.exchange.inbox[k].action.kind == k { assert KindTruthful(s, k); }
    BrokerKeepsSound(s.exchange, m, s.now);
    BrokerExtends(s.exchange, m, s.now);
    ExtendsTransitive(s.seen, s.exchange, t.exchange);
    BrokerSolvent(s, m);
  }

  lemma TickKept(s: System, now: real)
    requires Kept(s) && s.now <= now
    ensures Kept(s.(now := now))
  {
    var t := s.(now := now);
    forall k: Kind ensures KindTruthful(t, k) { assert KindTruthful(s, k); }
  }

  lemma CrashKept(s: System)
    requires Kept(s)
    ensures Kept(s.(position := Idle))
  {
    var t := s.(position := Idle);
    forall k: Kind ensures KindTruthful(t, k) { assert KindTruthful(s, k); }
  }

  lemma OwnerRecoveryKept(s: System)
    requires Kept(s) && s.ledger.session.capability.Some?
    ensures Kept(s.(ledger := WithSessionState(s.ledger, CleanupOnly, true)))
  {
    var t := s.(ledger := WithSessionState(s.ledger, CleanupOnly, true));
    RestateKept(s.ledger, CleanupOnly, true);
    QuieterSlots(s.ledger, t.ledger);
    QuieterSolvent(s, t);
    forall k: Kind ensures KindTruthful(t, k) { assert KindTruthful(s, k); }
  }

  /** The invariant is inductive. */
  lemma StepKept(s: System, step: Step)
    requires Kept(s) && StepLegal(s, step)
    ensures Kept(StepAfter(s, step))
  {
    match step
    case Service(m, truth, seen) => ServiceKept(s, m, truth, seen);
    case Dispatch(m, truth, seen) => DispatchKept(s, m, truth, seen);
    case Broker(m) => BrokerKept(s, m);
    case Tick(now) => TickKept(s, now);
    case OwnerRecovery => OwnerRecoveryKept(s);
    case Crash => CrashKept(s);
  }

  lemma InitialKept(s: System)
    requires Initial(s)
    ensures Kept(s)
  {
    forall k: Kind ensures KindTruthful(s, k) {}
  }

  lemma {:induction false} RunKept(s: System, steps: seq<Step>)
    requires Kept(s) && Run(s, steps)
    ensures Kept(RunEnd(s, steps))
    decreases |steps|
  {
    if steps != [] {
      StepKept(s, steps[0]);
      RunKept(StepAfter(s, steps[0]), steps[1..]);
    }
  }
}
