/**
  The order protocol as a state machine over the durable ledger, the exchange and the one volatile
  thing the service has: where the dispatch in progress stands.

  A service call is a sequence of ledger moves made with one account truth; it can stop after any
  prefix (an exception, a crash).  A crash loses the dispatch position and nothing else.  Calls are
  serialised by the service lock, so ledger moves happen only while no dispatch is in progress; the
  broker moves at any time.
*/
module OrderProtocol {
  import opened FunctionalVocabulary
  import opened OwnerMetrics
  import opened DurableLedger
  import opened ExchangeModel

  // ---- Ledger moves of a service call -----------------------------------------------------------

  datatype Move =
    | Recover                                  // sticky stream gap: REST-reconciled cleanup only
    | ProveNotSent(kind: Kind)
    | Reconcile(kind: Kind)
    | Restate(state: SessionState)             // set_session(state=..., cleanup_started=True)
    | Evaluate(evaluation: Evaluation)
    | Claim(action: SealedAction)
    | ObserveAbsence(kind: Kind, query: OrderQuery)
    | Seal(evidence: Evidence, prepareOnly: bool)
    | CommitFinal
    | Abort(evidence: Evidence)

  predicate AllTerminal(L: Ledger) { forall k :: k in L.rows ==> L.rows[k].state.Terminal() }

  predicate AllReconciled(L: Ledger) { forall k :: k in L.rows ==> L.rows[k].state.Reconciled? }

  /** Some row of the truth carries this client id with a terminal status. */
  predicate SeenTerminal(truth: AccountTruth, k: Kind) {
    exists row :: row in truth.AllRows() && row.client == Owned(k) && row.status.Terminal()
  }

  /** This exact client/broker id pair is listed as open. */
  predicate SeenWorking(truth: AccountTruth, k: Kind, orderId: nat) {
    exists row :: row in truth.open && row.client == Owned(k) && row.orderId == orderId
  }

  /** No order and no fill of the truth carries this client id. */
  predicate Unseen(truth: AccountTruth, k: Kind) {
    && (forall row :: row in truth.AllRows() ==> row.client != Owned(k))
    && (forall f :: f in truth.fills ==> f.client != Owned(k))
  }

  predicate NotPredating(truth: AccountTruth, row: ActionRow) {
    truth.observed + TRUTH_EPOCH_TOLERANCE >= row.updated
  }

  predicate SignaledBy(L: Ledger, a: SealedAction, signal: Signal) {
    && L.evaluations != []
    && L.evaluations[|L.evaluations| - 1] == Evaluation(a.barClose, signal)
  }

  /** What the service has established before it claims an action. */
  predicate ClaimJustified(L: Ledger, a: SealedAction, truth: AccountTruth, now: real) {
    && ClaimAllowed(L, a)
    && (a.kind.Natural() ==> L.session.state.Running? && now < L.session.expires && AllReconciled(L))
    && (a.kind.Buy? ==> !L.session.sellClaimed && a.quoteOrderQty <= MAX_ORDER_NOTIONAL && SignaledBy(L, a, SignalBuy))
    && (a.kind.Sell? ==> L.session.buyClaimed && SignaledBy(L, a, SignalSell))
    && (a.kind.Sells() ==> 0.0 < a.quantity <= OwnedQuantity(truth.fills))
    && (a.kind.CleanupSell? ==> AllTerminal(L) && CountCleanup(L.order) < MAX_CLEANUP_ACTIONS - 1)
    && (a.kind.Cancel? ==>
          && a.target.Some?
          && SeenWorking(truth, a.target.value, a.targetOrderId)
          && (forall k :: k in L.rows && !L.rows[k].state.Terminal() ==> k == a.target.value))
  }

  predicate RecentEpoch(observed: real, now: real) { -1.0 <= now - observed <= MAX_TRUTH_AGE }

  /** The exact lookup found nothing, just now and close to the truth it accompanies. */
  predicate QueryProvesAbsence(query: OrderQuery, k: Kind, truth: AccountTruth, now: real) {
    && SaysNotFound(query, k)
    && RecentEpoch(query.observed, now)
    && -MAX_TRUTH_AGE <= query.observed - truth.observed <= MAX_TRUTH_AGE
  }

  predicate SaysNotFound(query: OrderQuery, k: Kind) {
    query.complete && query.symbolExact && query.client == Owned(k) && query.notFound && query.errorCode == -2013
  }

  function ProofFrom(k: Kind, truth: AccountTruth, query: OrderQuery): AbsenceProof {
    AbsenceProof(k, truth.observed, truth.baseTotal, truth.quoteTotal, truth.open, truth.closed, truth.fills, query)
  }

  predicate AbsenceJustified(row: ActionRow, k: Kind, truth: AccountTruth) {
    && row.state.Ambiguous()
    && (row.absenceCount == 0 ==> truth.observed - row.updated >= NONACCEPTANCE_MIN_AGE)
    && AbsenceAllowed(row, truth.observed)
    && Unseen(truth, k)
    && row.preBase == Some(truth.baseTotal) && row.preQuote == Some(truth.quoteTotal)
  }

  predicate MoveLegal(L: Ledger, m: Move, truth: AccountTruth, now: real) {
    match m
    case Recover => L.session.capability.Some? && truth.recoveryOnly
    case ProveNotSent(k) => L.session.capability.Some? && InState(L, k, NotSent)
    case Reconcile(k) =>
      && L.session.capability.Some?
      && k in L.rows && L.rows[k].state.Reconcilable() && NotPredating(truth, L.rows[k])
      && (k.Trade() ==> SeenTerminal(truth, k))
      && (k.Cancel? ==> L.rows[k].action.target.Some? && SeenTerminal(truth, L.rows[k].action.target.value))
    case Restate(state) => L.session.capability.Some? && (state.CleanupOnly? || state.NeedsReconciliation?)
    case Evaluate(e) => L.session.capability.Some? && EvaluationAllowed(L, e)
    case Claim(a) => L.session.capability.Some? && ClaimJustified(L, a, truth, now)
    case ObserveAbsence(k, query) =>
      && L.session.capability.Some? && k in L.rows
      && AbsenceJustified(L.rows[k], k, truth) && QueryProvesAbsence(query, k, truth, now)
    case Seal(_, _) => L.session.capability.Some? && SealAllowed(L) && AllTerminal(L)
    case CommitFinal => CommitAllowed(L)
    case Abort(_) => AbortAllowed(L)
  }

  function MoveAfter(L: Ledger, m: Move, truth: AccountTruth, now: real): Ledger
    requires MoveLegal(L, m, truth, now)
  {
    match m
    case Recover => WithSessionState(L, CleanupOnly, true)
    case ProveNotSent(k) => WithTransition(L, k, ProvenNotAccepted, now)
    case Reconcile(k) => WithTransition(L, k, Reconciled, now)
    case Restate(state) => WithSessionState(L, state, false)
    case Evaluate(e) => WithEvaluation(L, e)
    case Claim(a) => WithClaim(L, a, now, Some(truth.baseTotal), Some(truth.quoteTotal))
    case ObserveAbsence(k, query) => WithAbsence(L, k, truth.observed, ProofFrom(k, truth, query))
    case Seal(evidence, prepareOnly) => WithSeal(L, if prepareOnly then FinalPrepared else Finalized, evidence)
    case CommitFinal => L.(session := L.session.(state := Finalized))
    case Abort(evidence) => WithSeal(L, Failed, evidence)
  }

  /** Where moves lead, one after the other with the same truth and clock reading; None once one is not legal. */
  function MovesEnd(L: Ledger, ms: seq<Move>, truth: AccountTruth, now: real): Option<Ledger>
    decreases |ms|
  {
    if ms == [] then Some(L)
    else if !MoveLegal(L, ms[0], truth, now) then None
    else MovesEnd(MoveAfter(L, ms[0], truth, now), ms[1..], truth, now)
  }

  /** A whole service call: legal moves from one ledger to another. */
  predicate Moves(L: Ledger, ms: seq<Move>, truth: AccountTruth, now: real, L': Ledger) {
    MovesEnd(L, ms, truth, now) == Some(L')
  }

  lemma {:induction false} MovesAppend(L: Ledger, ms: seq<Move>, truth: AccountTruth, now: real, M: Ledger, m: Move)
    requires Moves(L, ms, truth, now, M) && MoveLegal(M, m, truth, now)
    ensures Moves(L, ms + [m], truth, now, MoveAfter(M, m, truth, now))
    decreases |ms|
  {
    if ms == [] {
      assert (ms + [m])[1..] == [];
    } else {
      MovesAppend(MoveAfter(L, ms[0], truth, now), ms[1..], truth, now, M, m);
      assert (ms + [m])[1..] == ms[1..] + [m];
    }
  }

  lemma {:induction false} MovesConcat(
    L: Ledger, ms: seq<Move>, M: Ledger, ms': seq<Move>, N: Ledger, truth: AccountTruth, now: real)
    requires Moves(L, ms, truth, now, M) && Moves(M, ms', truth, now, N)
    ensures Moves(L, ms + ms', truth, now, N)
    decreases |ms|
  {
    if ms == [] {
      assert ms + ms' == ms';
    } else {
      var head, next := ms[0], MoveAfter(L, ms[0], truth, now);
      MovesConcat(next, ms[1..], M, ms', N, truth, now);
      MovesPrepend(L, head, next, ms[1..] + ms', N, truth, now);
      assert ms + ms' == [head] + (ms[1..] + ms');
    }
  }

  lemma MovesPrepend(L: Ledger, m: Move, next: Ledger, ms: seq<Move>, M: Ledger, truth: AccountTruth, now: real)
    requires MoveLegal(L, m, truth, now) && next == MoveAfter(L, m, truth, now) && Moves(next, ms, truth, now, M)
    ensures Moves(L, [m] + ms, truth, now, M)
  {
    assert ([m] + ms)[1..] == ms;
  }

  // ---- Dispatch moves ---------------------------------------------------------------------------

  /** Where dispatch_claim stands; lost in a crash. */
  datatype Position =
    | Idle
    | Opened(kind: Kind)                 // SUBMITTING committed, marker not yet
    | Marked(kind: Kind)                 // marker committed, transport not yet entered
    | Sent(kind: Kind)                   // transport entered, outcome not yet recorded
    | Refused(state: SessionState)       // action row settled, session row still to be restated

  datatype DispatchMove =
    | Open(kind: Kind)
    | Refuse(kind: Kind)
    | Fallback
    | Withdraw(kind: Kind)
    | Mark(kind: Kind)
    | Send(kind: Kind, visibleBy: real)
    | OutcomeUnknown(kind: Kind)
    | Acknowledge(kind: Kind)

  /** The re-check against a fresh truth between the claim and SUBMITTING. */
  predicate DispatchChecked(L: Ledger, a: SealedAction, truth: AccountTruth, now: real) {
    && L.session.capability.Some?
    && (a.kind.Buy? ==> now < L.session.expires && a.quoteOrderQty <= MAX_ORDER_NOTIONAL)
    && (a.kind.Sells() ==> a.quantity <= OwnedQuantity(truth.fills))
    && (a.kind.Cancel? ==> a.target.Some? && SeenWorking(truth, a.target.value, a.targetOrderId))
  }

  datatype System = System(
    ledger: Ledger,
    exchange: Exchange,
    seen: Exchange,          // the snapshot behind the last truth a call used
    now: real,
    position: Position,
    sends: multiset<Kind>)   // every entry into the transport

  predicate DispatchLegal(s: System, m: DispatchMove, truth: AccountTruth) {
    var L := s.ledger;
    match m
    case Open(k) => s.position.Idle? && InState(L, k, Claimed) && DispatchChecked(L, L.rows[k].action, truth, s.now)
    case Refuse(k) => s.position.Idle? && InState(L, k, Claimed)
    case Fallback => s.position.Refused?
    case Withdraw(k) => s.position == Opened(k) && InState(L, k, Submitting)
    case Mark(k) => s.position == Opened(k) && MarkAllowed(L, k)
    case Send(k, _) => s.position == Marked(k) && InState(L, k, PostMayHaveCrossed)
    case OutcomeUnknown(k) => (s.position == Marked(k) || s.position == Sent(k)) && InState(L, k, PostMayHaveCrossed)
    case Acknowledge(k) => s.position == Sent(k) && InState(L, k, PostMayHaveCrossed)
  }

  function DispatchAfter(s: System, m: DispatchMove, truth: AccountTruth): System
    requires DispatchLegal(s, m, truth)
  {
    var L := s.ledger;
    match m
    case Open(k) => s.(ledger := WithTransition(L, k, Submitting, s.now), position := Opened(k))
    case Refuse(k) => s.(ledger := WithTransition(L, k, NotSent, s.now), position := Refused(CleanupOnly))
    case Fallback => s.(ledger := WithSessionState(L, s.position.state, false), position := Idle)
    case Withdraw(k) => s.(ledger := WithTransition(L, k, NotSent, s.now), position := Refused(CleanupOnly))
    case Mark(k) => s.(ledger := WithMarker(L, k, s.now), position := Marked(k))
    case Send(k, horizon) => s.(
      exchange := s.exchange.(inbox := s.exchange.inbox[k := Request(L.rows[k].action, horizon)]),
      position := Sent(k),
      sends := s.sends + multiset{k})
    case OutcomeUnknown(k) => s.(
      ledger := WithTransition(L, k, ReconciliationRequired, s.now), position := Refused(NeedsReconciliation))
    case Acknowledge(k) => s.(ledger := WithTransition(L, k, Acknowledged, s.now), position := Idle)
  }

  // ---- Steps of the whole system -----------------------------------------------------------------

  datatype Step =
    | Service(move: Move, truth: AccountTruth, seen: Exchange)
    | Dispatch(dispatch: DispatchMove, truth: AccountTruth, seen: Exchange)
    | Broker(broker: BrokerMove)
    | Tick(now: real)
    | OwnerRecovery    // the lifecycle latches REST-only cleanup of an unsealed session, outside any call
    | Crash

  /**
    The truth handed to a call is an exchange snapshot no older than the one the previous call used,
    and it shows every order whose visibility horizon had passed when it was taken.
  */
  ghost predicate Fresh(s: System, truth: AccountTruth, seen: Exchange) {
    && Sound(seen) && Extends(s.seen, seen) && Extends(seen, s.exchange)
    && TruthOf(truth, seen)
    && truth.observed <= s.now
    && (forall k :: k in s.exchange.orders && s.exchange.orders[k].visibleBy <= truth.observed ==> k in seen.orders)
  }

  /** The transport is entered soon enough after the marker that the horizon covers it. */
  predicate Timely(s: System, m: DispatchMove) {
    m.Send? && m.kind in s.ledger.rows ==> m.visibleBy <= s.ledger.rows[m.kind].updated + NONACCEPTANCE_MIN_AGE
  }

  /** Every step except that nothing is said about how soon a request is visible. */
  ghost predicate StepLegalUntimed(s: System, step: Step) {
    match step
    case Service(m, truth, seen) => s.position.Idle? && Fresh(s, truth, seen) && MoveLegal(s.ledger, m, truth, s.now)
    case Dispatch(m, truth, seen) => Fresh(s, truth, seen) && DispatchLegal(s, m, truth)
    case Broker(m) => BrokerLegal(s.exchange, m, s.now)
    case Tick(now) => s.now <= now
    case OwnerRecovery => s.ledger.session.capability.Some?
    case Crash => true
  }

  ghost predicate StepLegal(s: System, step: Step) {
    StepLegalUntimed(s, step) && (step.Dispatch? ==> Timely(s, step.dispatch))
  }

  ghost function StepAfter(s: System, step: Step): System
    requires StepLegalUntimed(s, step)
  {
    match step
    case Service(m, truth, seen) =>
      s.(ledger := MoveAfter(s.ledger, m, truth, s.now), seen := seen)
    case Dispatch(m, truth, seen) => DispatchAfter(s, m, truth).(seen := seen)
    case Broker(m) => s.(exchange := BrokerAfter(s.exchange, m, s.now))
    case Tick(now) => s.(now := now)
    case OwnerRecovery => s.(ledger := WithSessionState(s.ledger, CleanupOnly, true))
    case Crash => s.(position := Idle)
  }

  predicate JustCreated(row: SessionRow) {
    && row.state.Running? && row.capability.Some? && row.evidence == None
    && !row.buyClaimed && !row.sellClaimed && row.cleanupSellClaimed == 0
  }

  /** A freshly created RUNNING session that owns nothing yet. */
  ghost predicate Initial(s: System) {
    && s.ledger.rows == map[] && s.ledger.order == [] && s.ledger.evaluations == []
    && JustCreated(s.ledger.session)
    && s.exchange == s.seen == Exchange(map[], map[], {}, [])
    && s.position.Idle? && s.sends == multiset{}
  }

  ghost predicate Run(s: System, steps: seq<Step>)
    decreases |steps|
  {
    steps == [] || (StepLegal(s, steps[0]) && Run(StepAfter(s, steps[0]), steps[1..]))
  }

  ghost function RunEnd(s: System, steps: seq<Step>): System
    requires Run(s, steps)
    decreases |steps|
  {
    if steps == [] then s else RunEnd(StepAfter(s, steps[0]), steps[1..])
  }
}
