/**
  The orchestration service.  Every method returns, as a ghost, the ledger moves it made: whatever
  it decides, the tables afterwards are the tables before plus legal protocol moves, all justified
  by the one truth it was given.  The results say what was established when it stopped.
*/
module ContinuousFunctionalService {
  import opened FunctionalVocabulary
  import opened OwnerMetrics
  import opened SymbolFilters
  import opened DurableLedger
  import opened ExchangeModel
  import opened OrderProtocol
  import opened ProtocolInvariant
  import opened LedgerPreservation
  import opened Reconciliation

  /**
    What the environment settles for one call: the capability presented, whether permit, binding
    and publication proofs are the sealed ones, whether the user stream and history baseline belong
    to this session, whether the rules carry the truth's permission proof, and the clock.
  */
  datatype Call = Call(capability: nat, permitExact: bool, streamExact: bool, permissionExact: bool, now: real)

  datatype Standing = Attributed(metrics: Metrics) | MixedOwner

  /** Capability, permit and freshness hold, and a REST-only truth is used for cleanup only. */
  predicate Admitted(session: SessionRow, call: Call, truth: AccountTruth, cleanupOnly: bool) {
    && session.capability == Some(call.capability)
    && call.permitExact
    && RecentEpoch(truth.observed, call.now)
    && (truth.recoveryOnly ==> cleanupOnly)
  }

  predicate Mixed(truth: AccountTruth) { !truth.recoveryOnly && !truth.externalActivityAbsent }

  /** The account delta is attributed and, outside cleanup, fees are exact and the loss below the cap. */
  predicate WithinCaps(session: SessionRow, truth: AccountTruth, cleanupOnly: bool) {
    && Attributable(truth, session.baselineBase, cleanupOnly && truth.recoveryOnly)
    && MetricsOf(truth).buyQuote <= MAX_GROSS_EXPOSURE
    && (cleanupOnly || (MetricsOf(truth).feesExact && MetricsOf(truth).ownerLoss < MAX_OWNER_LOSS))
  }

  /** An ordinary context, one that must attribute the account, goes through. */
  predicate ContextHolds(session: SessionRow, call: Call, truth: AccountTruth, cleanupOnly: bool) {
    Admitted(session, call, truth, cleanupOnly) && call.streamExact && WithinCaps(session, truth, cleanupOnly)
  }

  datatype Observation = ExpiredToCleanup | Held | NoReentry | SellCapReached | NaturalClaimed(kind: Kind)

  datatype Bar = Bar(close: real, signal: Signal)

  /** The session flags agree with the two natural rows. */
  predicate FlagsExact(L: Ledger) {
    (L.session.buyClaimed <==> Buy in L.rows) && (L.session.sellClaimed <==> Sell in L.rows)
  }

  /** What an observation answered; None where it raised. */
  function Answer(reply: Reply<Observation>): Option<Observation> { if reply.Done? then Some(reply.value) else None }

  function BuyAnswer(session: SessionRow, truth: AccountTruth, rules: SymbolRules, notional: real): Option<Observation> {
    if session.buyClaimed || session.sellClaimed then Some(NoReentry)
    else if && TallyFills(truth.fills).Owned() == 0.0 && truth.thirdAssetFundingAbsent
            && rules.BuyNotionalAllowed(notional) && truth.quoteAvailable >= notional
    then Some(NaturalClaimed(Buy))
    else None
  }

  function SellAnswer(session: SessionRow, truth: AccountTruth, rules: SymbolRules): Option<Observation>
    requires rules.Parsed()
  {
    if session.sellClaimed then Some(SellCapReached)
    else if TallyFills(truth.fills).Owned() <= 0.0 || !session.buyClaimed then Some(Held)
    else if rules.NormalizeFlatten(TallyFills(truth.fills).Owned()).Done? then Some(NaturalClaimed(Sell))
    else None
  }

  /** What a recorded bar is answered with. */
  function LegAnswer(session: SessionRow, truth: AccountTruth, rules: SymbolRules, permissionExact: bool, bar: Bar, notional: real): Option<Observation> {
    if bar.signal.SignalHold? then Some(Held)
    else if !rules.Parsed() || !permissionExact then None
    else if bar.signal.SignalBuy? then BuyAnswer(session, truth, rules, notional)
    else SellAnswer(session, truth, rules)
  }

  /** A session all of whose claims are settled may record this bar. */
  predicate BarDue(settled: bool, session: SessionRow, bar: Bar, now: real) {
    settled && session.state.Running? && now < session.expires && bar.close > session.lastBarClose
  }

  /** What a bar is answered with once context and reconciliation are through. */
  function BarAnswer(
    settled: bool, session: SessionRow, truth: AccountTruth, rules: SymbolRules, permissionExact: bool, bar: Bar, notional: real, now: real)
    : Option<Observation>
  {
    if !settled then None
    else if now >= session.expires then Some(ExpiredToCleanup)
    else if BarDue(settled, session, bar, now) then LegAnswer(session, truth, rules, permissionExact, bar, notional)
    else None
  }

  predicate CleanupForced(session: SessionRow, truth: AccountTruth, now: real) {
    now >= session.expires || !session.state.Running? || MetricsOf(truth).ownerLoss >= MAX_OWNER_LOSS
  }

  /** This truth leaves every claim RECONCILED. */
  ghost predicate SettlesAll(L: Ledger, truth: AccountTruth, now: real) {
    forall k :: k in L.rows ==> SettledRow(L.rows[k], k, truth, false, now).state.Reconciled?
  }

  /** Context and reconciliation of an ordinary call go through. */
  ghost predicate Through(L: Ledger, call: Call, truth: AccountTruth) {
    ContextHolds(L.session, call, truth, false) && NoStop(L, |L.order|, truth, false)
  }

  /** The context of recover, which tolerates mixed-owner activity just to latch it. */
  ghost predicate RecoveryAdmitted(session: SessionRow, call: Call, truth: AccountTruth) {
    || ContextHolds(session, call, truth, true)
    || (Admitted(session, call, truth, true) && call.streamExact && Mixed(truth))
  }

  datatype Recovery =
    | ExternalActivity
    | UnsafePending
    | DeadlineExceeded
    | CancelAlreadyClaimed
    | BudgetExhausted
    | CancelClaimed(kind: Kind)
    | SlotPreserved
    | Dust(residual: real)
    | FlattenClaimed(kind: Kind)
    | BaselineFlat

  function OwnedOpen(rows: seq<OrderRow>): (own: seq<OrderRow>)
    ensures forall row :: row in own <==> row in rows && row.client.Owned?
  {
    if rows == [] then [] else
      var last := rows[|rows| - 1];
      var rest := OwnedOpen(rows[..|rows| - 1]);
      assert rows == rows[..|rows| - 1] + [last];
      if last.client.Owned? then rest + [last] else rest
  }

  predicate ListedOpen(truth: AccountTruth, k: Kind) { exists row :: row in truth.open && row.client == Owned(k) }

  /** Some unresolved claim has no owned working order to explain it. */
  predicate HasUnsafePending(L: Ledger, truth: AccountTruth) {
    exists k :: k in L.rows && !L.rows[k].state.Terminal() && !ListedOpen(truth, k)
  }

  /** The rules do not let the owned residue be classified or sold. */
  predicate FlattenRefused(owned: real, mark: real, rules: SymbolRules, permissionExact: bool) {
    || !rules.Parsed() || !permissionExact
    || rules.UnorderableResidual(owned, mark).Blocked?
    || (!rules.UnorderableResidual(owned, mark).value && rules.NormalizeFlatten(owned).Blocked?)
  }

  /** The planner gives up: two owned working orders, or a residue the rules refuse while slots are left. */
  predicate PlanRefused(L: Ledger, truth: AccountTruth, rules: SymbolRules, permissionExact: bool) {
    var owned := TallyFills(truth.fills).Owned();
    || |OwnedOpen(truth.open)| > 1
    || (OwnedOpen(truth.open) == [] && owned > 0.0 && CountCleanup(L.order) < MAX_CLEANUP_ACTIONS - 1
        && FlattenRefused(owned, truth.markPrice, rules, permissionExact))
  }

  /** Every claim as reconciliation leaves it. */
  ghost predicate Settled(L: Ledger, rows: map<Kind, ActionRow>, truth: AccountTruth, now: real) {
    rows.Keys == L.rows.Keys && forall k :: k in L.rows ==> rows[k] == SettledRow(L.rows[k], k, truth, false, now)
  }

  /** When recover goes on to plan, and what it plans on. */
  ghost predicate Planning(L: Ledger, planned: Ledger, call: Call, truth: AccountTruth) {
    && !HasUnsafePending(planned, truth) && call.now < L.session.cleanupDeadline
    && planned.session.capability.Some?
    && (CleanupForced(L.session, truth, call.now) ==> planned.session.state.CleanupOnly?)
  }

  /** What recover answers before it plans, None when it goes on, and the ledger it has come to. */
  ghost predicate PreparedAnswer(L: Ledger, early: Option<Reply<Recovery>>, M: Ledger, call: Call, truth: AccountTruth) {
    && M.order == L.order
    && if !RecoveryAdmitted(L.session, call, truth) then early.Some? && early.value.Blocked?
       else if Mixed(truth) then early == Some(Done(ExternalActivity)) && M.session.state.NeedsReconciliation? && M.rows == L.rows
       else if !NoStop(L, |L.order|, truth, false) then early.Some? && early.value.Blocked?
       else
         && Settled(L, M.rows, truth, call.now)
         && if HasUnsafePending(M, truth) then early == Some(Done(UnsafePending))
            else if call.now >= L.session.cleanupDeadline then
              early == Some(Done(DeadlineExceeded)) && M.session.state.NeedsReconciliation?
            else early == None && Planning(L, M, call, truth)
  }

  /** What recover answers, on every ledger, truth and clock: `M` is where it planned, `N` where it ended. */
  ghost predicate RecoveryAnswer(
    L: Ledger, reply: Reply<Recovery>, M: Ledger, N: Ledger, call: Call, truth: AccountTruth, rules: SymbolRules)
  {
    || (exists early: Option<Reply<Recovery>> :: early.Some? && PreparedAnswer(L, early, M, call, truth) && reply == early.value && N == M)
    || (&& PreparedAnswer(L, None, M, call, truth)
        && if PlanRefused(M, truth, rules, call.permissionExact) then reply.Blocked? && N == M
           else reply.Done? && PlanOutcome(reply.value, M, N, truth, rules))
  }

  lemma OneMove(L: Ledger, m: Move, truth: AccountTruth, now: real)
    requires MoveLegal(L, m, truth, now)
    ensures Moves(L, [m], truth, now, MoveAfter(L, m, truth, now))
  {
    MovesAppend(L, [], truth, now, L, m);
    assert [] + [m] == [m];
  }

  /** With no unsafe pending claim, the unresolved claims are explained by the owned open orders. */
  lemma NothingOpenNothingUnresolved(L: Ledger, truth: AccountTruth)
    requires !HasUnsafePending(L, truth) && OwnedOpen(truth.open) == []
    ensures AllTerminal(L)
  {
    forall k | k in L.rows ensures L.rows[k].state.Terminal() {
      if ListedOpen(truth, k) { ListedIsOwned(truth, k); }
    }
  }

  lemma ListedIsOwned(truth: AccountTruth, k: Kind)
    requires ListedOpen(truth, k)
    ensures exists row :: row in OwnedOpen(truth.open) && row.client == Owned(k)
  {
    var row :| row in truth.open && row.client == Owned(k);
    assert row in OwnedOpen(truth.open);
  }

  lemma OneOpenOneUnresolved(L: Ledger, truth: AccountTruth)
    requires !HasUnsafePending(L, truth) && |OwnedOpen(truth.open)| == 1
    ensures var row := OwnedOpen(truth.open)[0];
            && row in truth.open && row.client.Owned?
            && (forall k :: k in L.rows && !L.rows[k].state.Terminal() ==> k == row.client.kind)
  {
    var only := OwnedOpen(truth.open)[0];
    assert only in OwnedOpen(truth.open);
    forall k | k in L.rows && !L.rows[k].state.Terminal() ensures k == only.client.kind {
      ListedIsOwned(truth, k);
    }
  }

  class FunctionalService {
    const ledger: DurableFunctionalLedger

    constructor (ledger: DurableFunctionalLedger)
      ensures this.ledger == ledger
    {
      this.ledger := ledger;
    }

    ghost predicate Valid() reads this, ledger { Bookkeeping(ledger.Tables()) }

    // ---- Guards every call shares ------------------------------------------------------------------

    method Context(call: Call, truth: AccountTruth, cleanupOnly: bool, allowMixed: bool)
      returns (reply: Reply<Standing>, ghost moves: seq<Move>)
      modifies ledger`session
      ensures Moves(old(ledger.Tables()), moves, truth, call.now, ledger.Tables())
      ensures moves == if Admitted(old(ledger.session), call, truth, cleanupOnly) && truth.recoveryOnly then [Move.Recover] else []
      ensures ledger.Tables() == if moves == [] then old(ledger.Tables()) else WithSessionState(old(ledger.Tables()), CleanupOnly, true)
      ensures reply.Done? <==>
                || ContextHolds(old(ledger.session), call, truth, cleanupOnly)
                || (Admitted(old(ledger.session), call, truth, cleanupOnly) && call.streamExact && allowMixed && Mixed(truth))
      ensures reply.Done? ==>
                reply.value == if allowMixed && Mixed(truth) then MixedOwner else Attributed(MetricsOf(truth))
      ensures reply.Done? ==> ledger.session.capability == Some(call.capability)
    {
      moves := [];
      if ledger.session.capability != Some(call.capability) { return Blocked("capability is invalid/revoked"), []; }
      if !call.permitExact { return Blocked("session permit or binding changed"), []; }
      if !RecentEpoch(truth.observed, call.now) { return Blocked("account truth is stale or future-dated"), []; }
      if truth.recoveryOnly {
        if !cleanupOnly { return Blocked("stream gap truth is cleanup-only"), []; }
        OneMove(ledger.Tables(), Move.Recover, truth, call.now);
        ledger.SetSessionState(CleanupOnly, true);
        moves := [Move.Recover];
      }
      if !call.streamExact { return Blocked("history baseline or stream binding changed"), moves; }
      if allowMixed && !truth.recoveryOnly && !truth.externalActivityAbsent {
        return Done(MixedOwner), moves;
      }
      var metrics := ComputeOwnerMetrics(truth, ledger.session.baselineBase, cleanupOnly && truth.recoveryOnly);
      if metrics.Blocked? { return Blocked(metrics.reason), moves; }
      if metrics.value.buyQuote > MAX_GROSS_EXPOSURE { return Blocked("owned entry gross exceeds 10 USDT"), moves; }
      if !metrics.value.feesExact && !cleanupOnly { return Blocked("fee valuation is incomplete; cleanup-only"), moves; }
      if metrics.value.ownerLoss >= MAX_OWNER_LOSS && !cleanupOnly { return Blocked("owner loss exceeds 1 USDT"), moves; }
      return Done(Attributed(metrics.value)), moves;
    }

    /** One session restatement, recorded as a move. */
    method Restated(state: SessionState, truth: AccountTruth, now: real, ghost start: Ledger, ghost before: seq<Move>)
      returns (ghost moves: seq<Move>)
      requires state.CleanupOnly? || state.NeedsReconciliation?
      requires ledger.session.capability.Some? && Moves(start, before, truth, now, ledger.Tables())
      modifies ledger`session
      ensures ledger.Tables() == WithSessionState(old(ledger.Tables()), state, false)
      ensures Moves(start, moves, truth, now, ledger.Tables())
    {
      MovesAppend(start, before, truth, now, ledger.Tables(), Restate(state));
      moves := before + [Restate(state)];
      ledger.SetSessionState(state, false);
    }

    /** One justified claim, recorded as a move. */
    method Claimed(a: SealedAction, truth: AccountTruth, now: real, ghost start: Ledger, ghost before: seq<Move>)
      returns (ok: bool, ghost moves: seq<Move>)
      requires ledger.session.capability.Some? && Moves(start, before, truth, now, ledger.Tables())
      requires ClaimAllowed(ledger.Tables(), a) ==> ClaimJustified(ledger.Tables(), a, truth, now)
      modifies ledger
      ensures ok <==> ClaimAllowed(old(ledger.Tables()), a)
      ensures ok ==> ledger.Tables() == WithClaim(old(ledger.Tables()), a, now, Some(truth.baseTotal), Some(truth.quoteTotal))
      ensures !ok ==> ledger.Tables() == old(ledger.Tables())
      ensures Moves(start, moves, truth, now, ledger.Tables()) && before <= moves
    {
      ghost var L := ledger.Tables();
      moves := before;
      var reply := ledger.ClaimAction(a, now, Some(truth.baseTotal), Some(truth.quoteTotal));
      ok := reply.Done?;
      if ok {
        MovesAppend(start, before, truth, now, L, Claim(a));
        moves := before + [Claim(a)];
      }
    }

    // ---- One finalized bar ------------------------------------------------------------------------------

    /** What a claimed natural leg is, in terms of the bar, the truth and the rules behind it. */
    ghost predicate LegOf(k: Kind, bar: Bar, truth: AccountTruth, rules: SymbolRules, notional: real) reads ledger {
      && InState(ledger.Tables(), k, ActionState.Claimed)
      && ledger.rows[k].action.barClose == bar.close
      && rules.Parsed()
      && match k
         case Buy => bar.signal.SignalBuy? && ledger.rows[k].action.quoteOrderQty == notional
                     && rules.BuyNotionalAllowed(notional) && notional <= truth.quoteAvailable
                     && TallyFills(truth.fills).Owned() == 0.0
         case Sell => bar.signal.SignalSell?
                      && rules.NormalizeFlatten(TallyFills(truth.fills).Owned()) == Done(ledger.rows[k].action.quantity)
         case _ => false
    }

    /** The BUY leg: flat, no third-asset fee funding, within exchange and functional caps, affordable. */
    method ClaimBuy(
      truth: AccountTruth, rules: SymbolRules, metrics: Metrics, bar: Bar, notional: real, now: real,
      ghost start: Ledger, ghost before: seq<Move>)
      returns (reply: Reply<Observation>, ghost moves: seq<Move>)
      requires ledger.session.capability.Some? && Moves(start, before, truth, now, ledger.Tables())
      requires ledger.session.state.Running? && now < ledger.session.expires && AllReconciled(ledger.Tables())
      requires ledger.evaluations != [] && ledger.evaluations[|ledger.evaluations| - 1] == Evaluation(bar.close, SignalBuy)
      requires metrics == MetricsOf(truth) && rules.Parsed() && bar.signal.SignalBuy? && FlagsExact(ledger.Tables())
      modifies ledger
      ensures Answer(reply) == BuyAnswer(old(ledger.session), truth, rules, notional)
      ensures Moves(start, moves, truth, now, ledger.Tables())
      ensures reply == Done(NaturalClaimed(Buy)) || (ledger.Tables() == old(ledger.Tables()) && (reply.Done? ==> reply.value == NoReentry))
      ensures reply == Done(NaturalClaimed(Buy)) ==>
                && LegOf(Buy, bar, truth, rules, notional) && truth.thirdAssetFundingAbsent
                && ledger.order == old(ledger.order) + [Buy] && ledger.evaluations == old(ledger.evaluations)
    {
      moves := before;
      if ledger.session.buyClaimed || ledger.session.sellClaimed { return Done(NoReentry), moves; }
      if metrics.ownedQuantity != 0.0 { return Blocked("owned position is not flat"), moves; }
      if !truth.thirdAssetFundingAbsent { return Blocked("positive BNB funding"), moves; }
      if !rules.BuyNotionalAllowed(notional) { return Blocked("BUY notional violates caps"), moves; }
      if truth.quoteAvailable < notional { return Blocked("available account USDT is insufficient"), moves; }
      var ok;
      ok, moves := Claimed(SealedAction(Buy, 0.0, notional, None, 0, bar.close), truth, now, start, before);
      if !ok { return Blocked("duplicate claim"), moves; }
      return Done(NaturalClaimed(Buy)), moves;
    }

    /** The natural SELL leg: exactly the normalised owned quantity. */
    method ClaimNaturalSell(
      truth: AccountTruth, rules: SymbolRules, metrics: Metrics, bar: Bar, ghost notional: real, now: real,
      ghost start: Ledger, ghost before: seq<Move>)
      returns (reply: Reply<Observation>, ghost moves: seq<Move>)
      requires ledger.session.capability.Some? && Moves(start, before, truth, now, ledger.Tables())
      requires ledger.session.state.Running? && now < ledger.session.expires && AllReconciled(ledger.Tables())
      requires ledger.evaluations != [] && ledger.evaluations[|ledger.evaluations| - 1] == Evaluation(bar.close, SignalSell)
      requires metrics == MetricsOf(truth) && rules.Parsed() && bar.signal.SignalSell? && FlagsExact(ledger.Tables())
      modifies ledger
      ensures Answer(reply) == SellAnswer(old(ledger.session), truth, rules)
      ensures Moves(start, moves, truth, now, ledger.Tables())
      ensures reply == Done(NaturalClaimed(Sell))
              || (ledger.Tables() == old(ledger.Tables()) && (reply.Done? ==> reply.value == SellCapReached || reply.value == Held))
      ensures reply == Done(NaturalClaimed(Sell)) ==>
                && LegOf(Sell, bar, truth, rules, notional)
                && ledger.order == old(ledger.order) + [Sell] && ledger.evaluations == old(ledger.evaluations)
    {
      moves := before;
      if ledger.session.sellClaimed { return Done(SellCapReached), moves; }
      if metrics.ownedQuantity <= 0.0 || !ledger.session.buyClaimed { return Done(Held), moves; }
      var flat := rules.NormalizeFlatten(metrics.ownedQuantity);
      if flat.Blocked? { return Blocked(flat.reason), moves; }
      FlattenProgress(rules, metrics.ownedQuantity, 1.0);
      var ok;
      ok, moves := Claimed(SealedAction(Sell, flat.value, 0.0, None, 0, bar.close), truth, now, start, before);
      if !ok { return Blocked("duplicate claim"), moves; }
      return Done(NaturalClaimed(Sell)), moves;
    }

    /** Context and reconciliation, as every ordinary call starts. */
    method Opening(call: Call, truth: AccountTruth, cleanupOnly: bool)
      returns (reply: Reply<Metrics>, ghost moves: seq<Move>)
      requires Valid()
      modifies ledger`session, ledger`rows
      ensures Moves(old(ledger.Tables()), moves, truth, call.now, ledger.Tables())
      ensures ledger.order == old(ledger.order) && ledger.evaluations == old(ledger.evaluations)
      ensures ledger.session == old(ledger.session)
              || (truth.recoveryOnly && ledger.Tables().session == WithSessionState(old(ledger.Tables()), CleanupOnly, true).session)
      ensures ledger.rows.Keys == old(ledger.rows).Keys
      ensures reply.Done? <==>
                ContextHolds(old(ledger.session), call, truth, cleanupOnly) && NoStop(old(ledger.Tables()), |old(ledger.order)|, truth, false)
      ensures reply.Done? ==>
                && reply.value == MetricsOf(truth)
                && ledger.session.capability == Some(call.capability)
                && WithinCaps(old(ledger.session), truth, cleanupOnly)
                && (forall k :: k in ledger.rows ==>
                      k in old(ledger.rows) && ledger.rows[k] == SettledRow(old(ledger.rows)[k], k, truth, false, call.now))
      ensures reply.Done? ==> (AllReconciled(ledger.Tables()) <==> SettlesAll(old(ledger.Tables()), truth, call.now))
    {
      ghost var L := ledger.Tables();
      var standing;
      standing, moves := Context(call, truth, cleanupOnly, false);
      ghost var M := ledger.Tables();
      if standing.Blocked? { return Blocked(standing.reason), moves; }
      var reconciled, settling, settled := ReconcileActions(ledger, truth, false, call.now);
      MovesConcat(L, moves, M, settling, ledger.Tables(), truth, call.now);
      moves := moves + settling;
      StopSomewhere(M, L, settled, truth, false);
      if reconciled.Blocked? { return Blocked(reconciled.reason), moves; }
      assert M.order[..settled] == M.order;
      return Done(standing.value.metrics), moves;
    }

    /** Bind the evaluation of this bar, once and in order. */
    method RecordBar(bar: Bar, truth: AccountTruth, now: real, ghost start: Ledger, ghost before: seq<Move>)
      returns (recorded: bool, ghost moves: seq<Move>)
      requires ledger.session.capability.Some? && Moves(start, before, truth, now, ledger.Tables())
      modifies ledger`session, ledger`evaluations
      ensures Moves(start, moves, truth, now, ledger.Tables())
      ensures recorded <==> EvaluationAllowed(old(ledger.Tables()), Evaluation(bar.close, bar.signal))
      ensures recorded ==> ledger.Tables() == WithEvaluation(old(ledger.Tables()), Evaluation(bar.close, bar.signal))
      ensures !recorded ==> ledger.Tables() == old(ledger.Tables())
    {
      ghost var M := ledger.Tables();
      moves := before;
      recorded := ledger.RecordEvaluation(Evaluation(bar.close, bar.signal));
      if recorded {
        MovesAppend(start, before, truth, now, M, Evaluate(Evaluation(bar.close, bar.signal)));
        moves := before + [Evaluate(Evaluation(bar.close, bar.signal))];
      }
    }

    /** The leg the signal of a just-recorded bar asks for. */
    method ClaimLeg(
      truth: AccountTruth, rules: SymbolRules, metrics: Metrics, bar: Bar, notional: real, now: real,
      ghost start: Ledger, ghost before: seq<Move>)
      returns (reply: Reply<Observation>, ghost moves: seq<Move>)
      requires ledger.session.capability.Some? && Moves(start, before, truth, now, ledger.Tables())
      requires ledger.session.state.Running? && now < ledger.session.expires && AllReconciled(ledger.Tables())
      requires ledger.evaluations != [] && ledger.evaluations[|ledger.evaluations| - 1] == Evaluation(bar.close, bar.signal)
      requires metrics == MetricsOf(truth) && rules.Parsed() && !bar.signal.SignalHold? && FlagsExact(ledger.Tables())
      modifies ledger
      ensures Answer(reply) == LegAnswer(old(ledger.session), truth, rules, true, bar, notional)
      ensures Moves(start, moves, truth, now, ledger.Tables())
      ensures ledger.evaluations == old(ledger.evaluations)
      ensures reply.Done? && reply.value.NaturalClaimed? ==>
                LegOf(reply.value.kind, bar, truth, rules, notional) && ledger.order == old(ledger.order) + [reply.value.kind]
      ensures !(reply.Done? && reply.value.NaturalClaimed?) ==>
                ledger.Tables() == old(ledger.Tables()) && (reply.Done? ==> !reply.value.ExpiredToCleanup?)
    {
      if bar.signal.SignalBuy? {
        reply, moves := ClaimBuy(truth, rules, metrics, bar, notional, now, start, before);
      } else {
        reply, moves := ClaimNaturalSell(truth, rules, metrics, bar, notional, now, start, before);
      }
    }

    /** Record the bar of a RUNNING, fully reconciled session and act on its signal. */
    method ActOnBar(
      call: Call, truth: AccountTruth, rules: SymbolRules, metrics: Metrics, bar: Bar, notional: real,
      ghost start: Ledger, ghost before: seq<Move>)
      returns (reply: Reply<Observation>, ghost moves: seq<Move>)
      requires ledger.session.capability.Some? && Moves(start, before, truth, call.now, ledger.Tables())
      requires ledger.session.state.Running? && call.now < ledger.session.expires && AllReconciled(ledger.Tables())
      requires metrics == MetricsOf(truth) && FlagsExact(ledger.Tables())
      modifies ledger
      ensures Moves(start, moves, truth, call.now, ledger.Tables())
      ensures Answer(reply) ==
                if bar.close > old(ledger.session).lastBarClose
                then LegAnswer(old(ledger.session), truth, rules, call.permissionExact, bar, notional) else None
      ensures ledger.evaluations ==
                old(ledger.evaluations) + (if bar.close > old(ledger.session).lastBarClose then [Evaluation(bar.close, bar.signal)] else [])
      ensures reply.Done? && reply.value.NaturalClaimed? ==>
                && LegOf(reply.value.kind, bar, truth, rules, notional)
                && ledger.order == old(ledger.order) + [reply.value.kind]
      ensures !(reply.Done? && reply.value.NaturalClaimed?) ==> ledger.order == old(ledger.order)
      ensures reply.Done? ==> !reply.value.ExpiredToCleanup?
    {
      var recorded;
      recorded, moves := RecordBar(bar, truth, call.now, start, before);
      if !recorded { return Blocked("bar close is duplicate or out of order"), moves; }
      if bar.signal.SignalHold? { return Done(Held), moves; }
      if !rules.Parsed() || !call.permissionExact { return Blocked("rules or permission proof changed"), moves; }
      reply, moves := ClaimLeg(truth, rules, metrics, bar, notional, call.now, start, moves);
    }

    /** Past context and reconciliation: pending claims, expiry and state, then the bar. */
    method AfterOpening(
      call: Call, truth: AccountTruth, rules: SymbolRules, metrics: Metrics, bar: Bar, notional: real,
      ghost start: Ledger, ghost before: seq<Move>)
      returns (reply: Reply<Observation>, ghost moves: seq<Move>)
      requires ledger.session.capability.Some? && Moves(start, before, truth, call.now, ledger.Tables())
      requires metrics == MetricsOf(truth) && FlagsExact(ledger.Tables())
      modifies ledger
      ensures Moves(start, moves, truth, call.now, ledger.Tables())
      ensures var settled := AllReconciled(old(ledger.Tables()));
              && Answer(reply) ==
                   BarAnswer(settled, old(ledger.session), truth, rules, call.permissionExact, bar, notional, call.now)
              && ledger.evaluations ==
                   old(ledger.evaluations)
                   + (if BarDue(settled, old(ledger.session), bar, call.now) then [Evaluation(bar.close, bar.signal)] else [])
      ensures reply.Done? && reply.value.NaturalClaimed? ==>
                && LegOf(reply.value.kind, bar, truth, rules, notional)
                && ledger.order == old(ledger.order) + [reply.value.kind]
      ensures !(reply.Done? && reply.value.NaturalClaimed?) ==> ledger.order == old(ledger.order)
      ensures reply.Done? && reply.value.ExpiredToCleanup? ==> ledger.session.state.CleanupOnly?
    {
      moves := before;
      if !AllReconciled(ledger.Tables()) {
        return Blocked("prior durable action must be reconciled before a new signal"), moves;
      }
      if call.now >= ledger.session.expires {
        moves := Restated(CleanupOnly, truth, call.now, start, moves);
        return Done(ExpiredToCleanup), moves;
      }
      if !ledger.session.state.Running? { return Blocked("session is cleanup-only or finalized"), moves; }
      reply, moves := ActOnBar(call, truth, rules, metrics, bar, notional, start, moves);
    }

    /**
      Records the bar and at most claims one natural leg: what it answers, whether the bar is recorded
      and what is claimed are determined for every session, truth and bar.
    */
    method ObserveBar(call: Call, truth: AccountTruth, rules: SymbolRules, bar: Bar, notional: real)
      returns (reply: Reply<Observation>, ghost moves: seq<Move>)
      requires Valid()
      modifies ledger
      ensures Moves(old(ledger.Tables()), moves, truth, call.now, ledger.Tables())
      ensures var settled := SettlesAll(old(ledger.Tables()), truth, call.now);
              && Answer(reply) ==
                   (if Through(old(ledger.Tables()), call, truth)
                    then BarAnswer(settled, old(ledger.session), truth, rules, call.permissionExact, bar, notional, call.now) else None)
              && ledger.evaluations ==
                   old(ledger.evaluations)
                   + (if Through(old(ledger.Tables()), call, truth) && BarDue(settled, old(ledger.session), bar, call.now)
                      then [Evaluation(bar.close, bar.signal)] else [])
      ensures reply.Done? && reply.value.NaturalClaimed? ==>
                && LegOf(reply.value.kind, bar, truth, rules, notional)
                && ledger.order == old(ledger.order) + [reply.value.kind]
      ensures !(reply.Done? && reply.value.NaturalClaimed?) ==> ledger.order == old(ledger.order)
      ensures reply.Done? && reply.value.ExpiredToCleanup? ==> ledger.session.state.CleanupOnly?
    {
      var opening;
      opening, moves := Opening(call, truth, false);
      if opening.Blocked? { return Blocked(opening.reason), moves; }
      reply, moves := AfterOpening(call, truth, rules, opening.value, bar, notional, old(ledger.Tables()), moves);
    }

    // ---- Delayed nonacceptance -----------------------------------------------------------------------------

    /** The branches that turn one truth away, in order. */
    function AbsenceObjection(row: ActionRow, k: Kind, truth: AccountTruth, query: OrderQuery, now: real): (objection: Option<string>)
      ensures objection == None <==> AbsenceJustified(row, k, truth) && QueryProvesAbsence(query, k, truth, now)
    {
      if !row.state.Ambiguous() then Some("claim is not an ambiguous no-retry action")
      else if row.absenceCount == 0 && truth.observed - row.updated < NONACCEPTANCE_MIN_AGE then
        Some("broker acceptance visibility horizon has not elapsed")
      else if row.absenceCount > 0 && truth.observed - row.absenceLast < NONACCEPTANCE_MIN_SPACING then
        Some("observations are not sufficiently spaced")
      else if !QueryProvesAbsence(query, k, truth, now) then Some("exact client-order lookup does not prove nonacceptance")
      else if !Unseen(truth, k) then Some("ambiguous order/fill exists in complete broker truth")
      else if row.preBase == None || row.preQuote == None then Some("pre-POST balance seal is absent")
      else if truth.baseTotal != row.preBase.value || truth.quoteTotal != row.preQuote.value then
        Some("account balances changed during nonacceptance proof")
      else None
    }

    /** Append one observation; `Done(true)` when it terminalized the claim. */
    method ProveAmbiguousNotAccepted(call: Call, truth: AccountTruth, k: Kind, query: OrderQuery)
      returns (reply: Reply<bool>, ghost moves: seq<Move>)
      modifies ledger`session, ledger`rows
      ensures Moves(old(ledger.Tables()), moves, truth, call.now, ledger.Tables())
      ensures reply.Done? <==>
                && ContextHolds(old(ledger.session), call, truth, true)
                && k in old(ledger.rows) && AbsenceJustified(old(ledger.rows)[k], k, truth)
                && QueryProvesAbsence(query, k, truth, call.now)
      ensures reply.Done? ==>
                && ledger.rows == old(ledger.rows)[k := AbsenceRow(old(ledger.rows)[k], truth.observed, ProofFrom(k, truth, query))]
                && (reply.value <==> old(ledger.rows)[k].absenceCount + 1 >= NONACCEPTANCE_MIN_OBSERVATIONS)
                && (reply.value ==> ledger.session.state.CleanupOnly?)
      ensures reply.Done? ==>
                ledger.rows[k].absenceProof ==
                  Rolled(old(ledger.rows)[k].absenceProof,
                         AbsenceProof(k, truth.observed, truth.baseTotal, truth.quoteTotal, truth.open, truth.closed, truth.fills, query))
      ensures reply.Blocked? ==> ledger.rows == old(ledger.rows)
    {
      var standing;
      standing, moves := Context(call, truth, true, false);
      if standing.Blocked? { return Blocked(standing.reason), moves; }
      if k !in ledger.rows { return Blocked("claim does not exist"), moves; }
      var row := ledger.rows[k];
      var objection := AbsenceObjection(row, k, truth, query, call.now);
      if objection.Some? { return Blocked(objection.value), moves; }
      ghost var M := ledger.Tables();
      var recorded := ledger.RecordAbsence(k, row.state, truth.observed, ProofFrom(k, truth, query));
      MovesAppend(old(ledger.Tables()), moves, truth, call.now, M, ObserveAbsence(k, query));
      moves := moves + [ObserveAbsence(k, query)];
      var terminal := ledger.rows[k].state.AmbiguousProvenNotAccepted?;
      if terminal {
        moves := Restated(CleanupOnly, truth, call.now, old(ledger.Tables()), moves);
      }
      return Done(terminal), moves;
    }

    // ---- Recovery --------------------------------------------------------------------------------------------

    /** Cancel the one owned working order, once, if a slot is left. */
    method PlanCancel(truth: AccountTruth, row: OrderRow, ghost rules: SymbolRules, now: real, ghost start: Ledger, ghost before: seq<Move>)
      returns (reply: Reply<Recovery>, ghost moves: seq<Move>)
      requires Valid() && ledger.session.capability.Some? && Moves(start, before, truth, now, ledger.Tables())
      requires OwnedOpen(truth.open) == [row] && row in truth.open && row.client.Owned?
      requires forall k :: k in ledger.rows && !ledger.rows[k].state.Terminal() ==> k == row.client.kind
      modifies ledger
      ensures Moves(start, moves, truth, now, ledger.Tables())
      ensures before <= moves
      ensures reply.Done? && PlanOutcome(reply.value, old(ledger.Tables()), ledger.Tables(), truth, rules)
    {
      moves := before;
      var target := row.client.kind;
      assert ListedOpen(truth, target);
      if TargetCanceled(ledger.rows, Some(target)) { return Done(CancelAlreadyClaimed), moves; }
      var cleanups, cancels := ledger.CountCleanupActions();
      if cleanups >= MAX_CLEANUP_ACTIONS { return Done(BudgetExhausted), moves; }
      var a := SealedAction(Cancel(cancels + 1), 0.0, 0.0, Some(target), row.orderId, 0.0);
      var ok;
      ok, moves := Claimed(a, truth, now, start, before);
      assert ok;
      return Done(CancelClaimed(a.kind)), moves;
    }

    /** Sell the owned residue, unless it is dust or only the last slot is left. */
    method PlanFlatten(truth: AccountTruth, rules: SymbolRules, permissionExact: bool, now: real, ghost start: Ledger, ghost before: seq<Move>)
      returns (reply: Reply<Recovery>, ghost moves: seq<Move>)
      requires Valid() && ledger.session.capability.Some? && Moves(start, before, truth, now, ledger.Tables())
      requires AllTerminal(ledger.Tables()) && OwnedOpen(truth.open) == [] && TallyFills(truth.fills).Owned() > 0.0
      modifies ledger
      ensures Moves(start, moves, truth, now, ledger.Tables())
      ensures reply.Done? ==> PlanOutcome(reply.value, old(ledger.Tables()), ledger.Tables(), truth, rules)
      ensures reply.Blocked? ==> ledger.Tables() == old(ledger.Tables())
      ensures before <= moves
      ensures reply.Blocked? <==>
                CountCleanup(old(ledger.order)) < MAX_CLEANUP_ACTIONS - 1
                && FlattenRefused(TallyFills(truth.fills).Owned(), truth.markPrice, rules, permissionExact)
    {
      moves := before;
      var owned := TallyFills(truth.fills).Owned();
      var cleanups, cancels := ledger.CountCleanupActions();
      if cleanups >= MAX_CLEANUP_ACTIONS - 1 { return Done(SlotPreserved), moves; }
      if !rules.Parsed() || !permissionExact { return Blocked("rules or permission proof changed"), moves; }
      var dust := rules.UnorderableResidual(owned, truth.markPrice);
      if dust.Blocked? { return Blocked(dust.reason), moves; }
      if dust.value { return Done(Dust(owned)), moves; }
      var flat := rules.NormalizeFlatten(owned);
      if flat.Blocked? { return Blocked(flat.reason), moves; }
      reply, moves := ClaimFlatten(truth, rules, flat.value, now, start, before);
    }

    /** Claim the next cleanup SELL of exactly this normalised quantity. */
    method ClaimFlatten(truth: AccountTruth, rules: SymbolRules, quantity: real, now: real, ghost start: Ledger, ghost before: seq<Move>)
      returns (reply: Reply<Recovery>, ghost moves: seq<Move>)
      requires Valid() && ledger.session.capability.Some? && Moves(start, before, truth, now, ledger.Tables())
      requires AllTerminal(ledger.Tables()) && OwnedOpen(truth.open) == [] && TallyFills(truth.fills).Owned() > 0.0
      requires CountCleanup(ledger.order) < MAX_CLEANUP_ACTIONS - 1
      requires rules.Parsed() && rules.NormalizeFlatten(TallyFills(truth.fills).Owned()) == Done(quantity)
      modifies ledger
      ensures Moves(start, moves, truth, now, ledger.Tables())
      ensures before <= moves
      ensures reply.Done? && PlanOutcome(reply.value, old(ledger.Tables()), ledger.Tables(), truth, rules)
    {
      FlattenProgress(rules, TallyFills(truth.fills).Owned(), 1.0);
      var a := SealedAction(CleanupSell(ledger.session.cleanupSellClaimed + 1), quantity, 0.0, None, 0, 0.0);
      var ok;
      ok, moves := Claimed(a, truth, now, start, before);
      assert ok;
      return Done(FlattenClaimed(a.kind)), moves;
    }

    /** Loss limit, cleanup deadline and expiry, in the order recover looks at them. */
    method RestateForCleanup(loss: real, truth: AccountTruth, now: real, ghost start: Ledger, ghost before: seq<Move>)
      returns (overdue: bool, ghost moves: seq<Move>)
      requires ledger.session.capability.Some? && Moves(start, before, truth, now, ledger.Tables())
      modifies ledger`session
      ensures Moves(start, moves, truth, now, ledger.Tables())
      ensures overdue <==> now >= old(ledger.session).cleanupDeadline
      ensures overdue ==> ledger.session.state.NeedsReconciliation?
      ensures !overdue && (now >= old(ledger.session).expires || !old(ledger.session).state.Running? || loss >= MAX_OWNER_LOSS) ==>
                ledger.session.state.CleanupOnly?
      ensures SameClaims(old(ledger.Tables()), ledger.Tables())
    {
      moves := before;
      if loss >= MAX_OWNER_LOSS {
        moves := Restated(CleanupOnly, truth, now, start, moves);
      }
      if now >= ledger.session.cleanupDeadline {
        moves := Restated(NeedsReconciliation, truth, now, start, moves);
        return true, moves;
      }
      if now >= ledger.session.expires || !ledger.session.state.Running? {
        moves := Restated(CleanupOnly, truth, now, start, moves);
      }
      return false, moves;
    }

    /** The cancel and flatten planner, once every unresolved claim is explained by a working order. */
    method PlanCleanup(truth: AccountTruth, rules: SymbolRules, permissionExact: bool, now: real, ghost start: Ledger, ghost before: seq<Move>)
      returns (reply: Reply<Recovery>, ghost moves: seq<Move>)
      requires Valid() && ledger.session.capability.Some? && Moves(start, before, truth, now, ledger.Tables())
      requires !HasUnsafePending(ledger.Tables(), truth) && TallyFills(truth.fills).Owned() >= 0.0
      modifies ledger
      ensures Moves(start, moves, truth, now, ledger.Tables())
      ensures reply.Done? ==> PlanOutcome(reply.value, old(ledger.Tables()), ledger.Tables(), truth, rules)
      ensures reply.Blocked? ==> ledger.Tables() == old(ledger.Tables())
      ensures before <= moves
      ensures reply.Blocked? <==> PlanRefused(old(ledger.Tables()), truth, rules, permissionExact)
    {
      moves := before;
      var open := OwnedOpen(truth.open);
      if |open| > 1 { return Blocked("more than one owned working order exists"), moves; }
      if |open| == 1 {
        OneOpenOneUnresolved(ledger.Tables(), truth);
        reply, moves := PlanCancel(truth, open[0], rules, now, start, moves);
        return;
      }
      NothingOpenNothingUnresolved(ledger.Tables(), truth);
      if TallyFills(truth.fills).Owned() > 0.0 {
        reply, moves := PlanFlatten(truth, rules, permissionExact, now, start, moves);
        return;
      }
      return Done(BaselineFlat), moves;
    }

    /** Context, mixed-owner latch and reconciliation; `Done(true)` after a mixed-owner latch. */
    method ReconcileForRecovery(call: Call, truth: AccountTruth) returns (reply: Reply<bool>, ghost moves: seq<Move>)
      requires Valid()
      modifies ledger`session, ledger`rows
      ensures Moves(old(ledger.Tables()), moves, truth, call.now, ledger.Tables())
      ensures reply.Blocked? <==>
                || !RecoveryAdmitted(old(ledger.session), call, truth)
                || (!Mixed(truth) && !NoStop(old(ledger.Tables()), |old(ledger.order)|, truth, false))
      ensures reply.Done? ==> (reply.value <==> Mixed(truth)) && ledger.session.capability.Some?
      ensures reply == Done(true) ==> ledger.session.state.NeedsReconciliation? && ledger.rows == old(ledger.rows)
      ensures reply == Done(false) ==>
                && ledger.session == (if truth.recoveryOnly then WithSessionState(old(ledger.Tables()), CleanupOnly, true).session
                                      else old(ledger.session))
                && Settled(old(ledger.Tables()), ledger.rows, truth, call.now)
                && TallyFills(truth.fills).Owned() >= 0.0
    {
      ghost var L := ledger.Tables();
      var standing;
      standing, moves := Context(call, truth, true, true);
      if standing.Blocked? { return Blocked(standing.reason), moves; }
      if standing.value.MixedOwner? {
        moves := Restated(NeedsReconciliation, truth, call.now, L, moves);
        return Done(true), moves;
      }
      ghost var M := ledger.Tables();
      var reconciled, settling, settled := ReconcileActions(ledger, truth, false, call.now);
      MovesConcat(L, moves, M, settling, ledger.Tables(), truth, call.now);
      moves := moves + settling;
      StopSomewhere(M, L, settled, truth, false);
      return if reconciled.Blocked? then Blocked(reconciled.reason) else Done(false), moves;
    }

    /** Everything recover does before it plans; None when it goes on to plan. */
    method PrepareRecovery(call: Call, truth: AccountTruth)
      returns (early: Option<Reply<Recovery>>, ghost moves: seq<Move>)
      requires Valid()
      modifies ledger`session, ledger`rows
      ensures Moves(old(ledger.Tables()), moves, truth, call.now, ledger.Tables())
      ensures PreparedAnswer(old(ledger.Tables()), early, ledger.Tables(), call, truth)
      ensures early == None ==> TallyFills(truth.fills).Owned() >= 0.0
    {
      var reconciled;
      reconciled, moves := ReconcileForRecovery(call, truth);
      if reconciled.Blocked? { return Some(Blocked(reconciled.reason)), moves; }
      if reconciled.value { return Some(Done(ExternalActivity)), moves; }
      if HasUnsafePending(ledger.Tables(), truth) { return Some(Done(UnsafePending)), moves; }
      var overdue;
      overdue, moves := RestateForCleanup(MetricsOf(truth).ownerLoss, truth, call.now, old(ledger.Tables()), moves);
      return if overdue then Some(Done(DeadlineExceeded)) else None, moves;
    }

    /**
      Restart/expiry recovery.  It never claims over an unresolved claim it cannot explain, cancels
      a target once, flattens exactly the normalised owned quantity, and reports flat only when every
      claim is terminal, nothing owned is open and nothing is owned.  It raises exactly when the
      context or a claim's reconciliation does, or when the rules refuse the plan.
    */
    method RecoverSession(call: Call, truth: AccountTruth, rules: SymbolRules)
      returns (reply: Reply<Recovery>, ghost moves: seq<Move>, ghost planned: Ledger, ghost done: nat)
      requires Valid()
      modifies ledger
      ensures Moves(old(ledger.Tables()), moves, truth, call.now, ledger.Tables())
      ensures done <= |moves| && Moves(old(ledger.Tables()), moves[..done], truth, call.now, planned)
      ensures RecoveryAnswer(old(ledger.Tables()), reply, planned, ledger.Tables(), call, truth, rules)
    {
      var early;
      early, moves := PrepareRecovery(call, truth);
      ghost var before := moves;
      planned, done := ledger.Tables(), |before|;
      assert before[..done] == before;
      if early.Some? { return early.value, moves, planned, done; }
      MovesBookkeeping(old(ledger.Tables()), moves, truth, call.now, ledger.Tables());
      reply, moves := PlanCleanup(truth, rules, call.permissionExact, call.now, old(ledger.Tables()), before);
      assert moves[..done] == before;
    }
  }

  /** The loop stopped somewhere exactly when some claim's truth is contradictory; the session row plays no part. */
  lemma StopSomewhere(M: Ledger, L: Ledger, settled: nat, truth: AccountTruth, requireAll: bool)
    requires M.rows == L.rows && M.order == L.order && (forall k :: k in L.rows <==> k in L.order)
    requires settled <= |L.order| && NoStop(M, settled, truth, requireAll)
    requires settled < |L.order| ==> VerdictOn(L.rows[L.order[settled]], L.order[settled], truth, requireAll).Stop?
    ensures settled == |L.order| <==> NoStop(L, |L.order|, truth, requireAll)
  {
    assert L.order[..|L.order|] == L.order;
  }

  /** Rows, order and evaluations are the same; only the session row may differ, and not in its epochs. */
  ghost predicate SameClaims(L: Ledger, M: Ledger) {
    && M.rows == L.rows && M.order == L.order && M.evaluations == L.evaluations
    && M.session == L.session.(state := M.session.state, cleanupStarted := M.session.cleanupStarted, recoveryUsed := M.session.recoveryUsed)
  }

  /** What each planner outcome means for the tables and the truth it was planned on. */
  ghost predicate PlanOutcome(outcome: Recovery, L: Ledger, M: Ledger, truth: AccountTruth, rules: SymbolRules) {
    var owned := TallyFills(truth.fills).Owned();
    match outcome
    case CancelClaimed(k) =>
      && |OwnedOpen(truth.open)| == 1
      && M.order == L.order + [k] && k.Cancel? && InState(M, k, ActionState.Claimed)
      && M.rows[k].action.target.Some?
      && OwnedOpen(truth.open)[0].client == Owned(M.rows[k].action.target.value)
      && OwnedOpen(truth.open)[0].orderId == M.rows[k].action.targetOrderId
      && SeenWorking(truth, M.rows[k].action.target.value, M.rows[k].action.targetOrderId)
      && !TargetCanceled(L.rows, M.rows[k].action.target) && CountCleanup(L.order) < MAX_CLEANUP_ACTIONS
    case FlattenClaimed(k) =>
      && AllTerminal(L) && OwnedOpen(truth.open) == [] && owned > 0.0 && CountCleanup(L.order) < MAX_CLEANUP_ACTIONS - 1
      && M.order == L.order + [k] && k.CleanupSell? && InState(M, k, ActionState.Claimed)
      && rules.Parsed() && rules.NormalizeFlatten(owned) == Done(M.rows[k].action.quantity)
    case CancelAlreadyClaimed => M == L && |OwnedOpen(truth.open)| == 1 && exists k :: ListedOpen(truth, k) && TargetCanceled(L.rows, Some(k))
    case BudgetExhausted =>
      && M == L && |OwnedOpen(truth.open)| == 1 && CountCleanup(L.order) >= MAX_CLEANUP_ACTIONS
      && exists k :: ListedOpen(truth, k) && !TargetCanceled(L.rows, Some(k))
    case SlotPreserved =>
      && M == L && OwnedOpen(truth.open) == [] && owned > 0.0 && AllTerminal(L)
      && CountCleanup(L.order) >= MAX_CLEANUP_ACTIONS - 1
    case Dust(residual) =>
      && M == L && AllTerminal(L) && OwnedOpen(truth.open) == [] && residual == owned > 0.0
      && CountCleanup(L.order) < MAX_CLEANUP_ACTIONS - 1
      && rules.Parsed() && rules.UnorderableResidual(owned, truth.markPrice) == Done(true)
    case BaselineFlat => M == L && AllTerminal(L) && owned == 0.0 && OwnedOpen(truth.open) == []
    case _ => false
  }
}
