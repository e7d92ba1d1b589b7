/**
  Sealing a session (finalize): which terminal truth is acceptable, which legs count as filled, which
  outcome is written, and what a written seal guarantees about the account.
*/
module SessionFinalization {
  import opened FunctionalVocabulary
  import opened OwnerMetrics
  import opened SymbolFilters
  import opened DurableLedger
  import opened ExchangeModel
  import opened OrderProtocol
  import opened ProtocolInvariant
  import opened LedgerPreservation
  import opened SystemPreservation
  import opened ProtocolSafety
  import opened ServiceRuns
  import opened Reconciliation
  import opened ExclusivityPhaseChain
  import opened ContinuousFunctionalService

  // ---- Runtime ---------------------------------------------------------------------------------------

  /** What the outcome reads of the session row. */
  datatype SessionFacts = SessionFacts(buyClaimed: bool, recoveryUsed: bool, started: real, expires: real)

  function FactsOf(session: SessionRow): SessionFacts {
    SessionFacts(session.buyClaimed, session.recoveryUsed, session.started, session.expires)
  }

  function Elapsed(until: real, since: real): real { if until - since > 0.0 then until - since else 0.0 }

  predicate Near(a: real, b: real) { -MAX_TRUTH_AGE <= a - b <= MAX_TRUTH_AGE }

  /** Wall clock, exchange clock and monotonic clock agree that the full two hours passed. */
  predicate TwoHoursComplete(session: SessionFacts, observed: real, monotonic: Option<real>, now: real) {
    && monotonic.Some?
    && Elapsed(now, session.started) >= PERMIT_SECONDS
    && Elapsed(observed, session.started) >= PERMIT_SECONDS
    && monotonic.value >= PERMIT_SECONDS
    && Near(Elapsed(now, session.started), Elapsed(observed, session.started))
    && Near(Elapsed(now, session.started), monotonic.value)
    && session.expires - session.started == PERMIT_SECONDS
  }

  /** A stream gap was ever used, or this truth itself was recovered over REST. */
  predicate Recovered(session: SessionRow, truth: AccountTruth) { session.recoveryUsed || truth.recoveryOnly }

  // ---- Residual --------------------------------------------------------------------------------------

  /** The three clocks agree within 15 s that at least 7200 s passed, of a permit of exactly 7200 s. */
  predicate FullRuntime(started: real, expires: real, observed: real, monotonic: Option<real>, now: real) {
    && now >= started + 7200.0 && observed >= started + 7200.0
    && monotonic.Some? && monotonic.value >= 7200.0
    && -15.0 <= now - observed <= 15.0 && -15.0 <= now - started - monotonic.value <= 15.0
    && expires == started + 7200.0
  }

  lemma TwoHoursExactly(session: SessionFacts, observed: real, monotonic: Option<real>, now: real)
    ensures TwoHoursComplete(session, observed, monotonic, now) <==>
              FullRuntime(session.started, session.expires, observed, monotonic, now)
  {}

  /** `Done(dust)` when the BTC left over is acceptable. */
  function ResidualVerdict(residual: real, delta: real, recovered: bool, rules: Option<SymbolRules>, permissionExact: bool, mark: real): Reply<bool> {
    if residual == 0.0 && delta == 0.0 then Done(false)
    else if recovered && residual == 0.0 then
      if delta < 0.0 then Blocked("REST cleanup would leave BTC below pre-existing baseline") else Done(false)
    else if residual <= 0.0 || !(if recovered then delta >= residual else delta == residual) then
      Blocked("final BTC balance is not baseline-owned")
    else if rules == None || !rules.value.Parsed() || !permissionExact then Blocked("exchange rules are required to prove final owned dust")
    else
      var dust := rules.value.UnorderableResidual(residual, mark);
      if dust.Blocked? then Blocked(dust.reason)
      else if !dust.value then Blocked("orderable session-owned BTC remains")
      else Done(true)
  }

  /**
    An acceptable residual is nothing or dust, and leaves the baseline where it was: exactly, unless
    this very truth was recovered over REST.
  */
  lemma AcceptableResidual(
    residual: real, delta: real, gapUsed: bool, recoveryOnly: bool, rules: Option<SymbolRules>, permissionExact: bool, mark: real)
    requires recoveryOnly || delta == residual
    requires ResidualVerdict(residual, delta, gapUsed || recoveryOnly, rules, permissionExact, mark).Done?
    ensures ResidualHeld(
              residual, delta, recoveryOnly, rules, mark,
              ResidualVerdict(residual, delta, gapUsed || recoveryOnly, rules, permissionExact, mark).value)
  {}

  /**
    Exactly what may be left: nothing above the baseline; after a recovery nothing owned and no less
    than the baseline; or an owned residue the balance covers -- exactly, unless recovered -- that the
    parsed rules prove unorderable.
  */
  lemma ResidualAccepted(residual: real, delta: real, recovered: bool, rules: Option<SymbolRules>, permissionExact: bool, mark: real)
    ensures ResidualVerdict(residual, delta, recovered, rules, permissionExact, mark).Done? <==>
              || (residual == 0.0 && delta == 0.0)
              || (residual == 0.0 && delta >= 0.0 && recovered)
              || (&& residual > 0.0 && (delta == residual || (recovered && delta >= residual))
                  && rules.Some? && rules.value.Parsed() && permissionExact
                  && rules.value.UnorderableResidual(residual, mark) == Done(true))
  {}

  /** `delta` BTC above the baseline, of which `residual` is owned, the rest recovered over REST. */
  ghost predicate ResidualHeld(residual: real, delta: real, recovered: bool, rules: Option<SymbolRules>, mark: real, dust: bool) {
    && 0.0 <= residual <= delta && (!recovered ==> delta == residual)
    && (dust <==> residual > 0.0)
    && (dust ==> rules.Some? && rules.value.Parsed() && rules.value.UnorderableResidual(residual, mark) == Done(true))
  }

  // ---- Filled legs -----------------------------------------------------------------------------------

  /** The closed order row a later duplicate would overwrite, as building a dictionary by client id does. */
  function LastClosed(rows: seq<OrderRow>, k: Kind): (last: Option<OrderRow>)
    ensures last.Some? ==> last.value in rows && last.value.client == Owned(k)
  {
    if rows == [] then None
    else if rows[|rows| - 1].client == Owned(k) then Some(rows[|rows| - 1])
    else
      var last := LastClosed(rows[..|rows| - 1], k);
      assert rows == rows[..|rows| - 1] + [rows[|rows| - 1]];
      last
  }

  /** The order row a leg is judged by is the last closed one with its client id. */
  lemma {:induction false} LastClosedIsLast(rows: seq<OrderRow>, k: Kind, row: OrderRow)
    ensures LastClosed(rows, k) == Some(row) <==>
              exists i :: 0 <= i < |rows| && rows[i] == row && row.client == Owned(k) && NoneAfter(rows, k, i)
    ensures LastClosed(rows, k) == None <==> forall r :: r in rows ==> r.client != Owned(k)
  {
    if rows != [] {
      var n := |rows| - 1;
      LastClosedIsLast(rows[..n], k, row);
      assert rows == rows[..n] + [rows[n]];
      if rows[n].client == Owned(k) {
        assert NoneAfter(rows, k, n);
        forall i | 0 <= i < |rows| && NoneAfter(rows, k, i) ensures i == n {}
      } else {
        forall i | 0 <= i < n ensures NoneAfter(rows, k, i) <==> NoneAfter(rows[..n], k, i) {
          assert forall j :: i < j < n ==> rows[..n][j] == rows[j];
        }
      }
    }
  }

  predicate NoneAfter(rows: seq<OrderRow>, k: Kind, i: int)
    requires 0 <= i < |rows|
  {
    forall j :: i < j < |rows| ==> rows[j].client != Owned(k)
  }

  predicate ClosedFilled(rows: map<Kind, ActionRow>, truth: AccountTruth, k: Kind) {
    && k in rows && rows[k].state.Reconciled?
    && LastClosed(truth.closed, k).Some? && LastClosed(truth.closed, k).value.status.Filled?
  }

  /** The leg's own fills are positive and sum exactly to its order. */
  predicate FillsExact(truth: AccountTruth, k: Kind)
    requires LastClosed(truth.closed, k).Some?
  {
    var row := LastClosed(truth.closed, k).value;
    && row.executedQty > 0.0 && row.executedQuote > 0.0
    && Executed(truth.fills, k) == row.executedQty && ExecutedQuote(truth.fills, k) == row.executedQuote
  }

  method CollectFilled(order: seq<Kind>, rows: map<Kind, ActionRow>, truth: AccountTruth) returns (reply: Reply<set<Kind>>)
    requires forall k :: k in order ==> k in rows
    ensures reply.Done? <==> forall k :: k in order && ClosedFilled(rows, truth, k) ==> FillsExact(truth, k)
    ensures reply.Done? ==> forall k :: k in reply.value <==> k in order && ClosedFilled(rows, truth, k)
  {
    var filled: set<Kind> := {};
    var i := 0;
    while i < |order|
      invariant 0 <= i <= |order|
      invariant forall k :: k in filled <==> k in order[..i] && ClosedFilled(rows, truth, k)
      invariant forall k :: k in filled ==> FillsExact(truth, k)
    {
      var k := order[i];
      assert order[..i + 1] == order[..i] + [k];
      if rows[k].state.Reconciled? {
        var row := LastClosed(truth.closed, k);
        if row.Some? && row.value.status.Filled? {
          if !FillsExact(truth, k) {
            assert k in order && ClosedFilled(rows, truth, k);
            return Blocked("terminal FILLED leg lacks exact positive aggregate fill truth");
          }
          filled := filled + {k};
        }
      }
      i := i + 1;
    }
    assert order[..i] == order;
    return Done(filled);
  }

  // ---- Outcome ---------------------------------------------------------------------------------------

  /** Everything the outcome depends on. */
  datatype Findings = Findings(
    filled: set<Kind>,
    buyClaimed: bool,
    feesExact: bool,
    ownerLoss: real,
    recovered: bool,
    twoHours: bool,
    chainComplete: bool,
    supervised: bool,
    causalClosure: bool)

  predicate RoundTrip(filled: set<Kind>) { Buy in filled && Sell in filled }

  /** No outcome when a filled round trip has fees that could not be valued. */
  function ChosenOutcome(f: Findings): Option<Outcome> {
    if RoundTrip(f.filled) && !f.feesExact then None else
      var first :=
        if RoundTrip(f.filled) then PassFullRoundTrip
        else if Buy in f.filled && (exists k :: k in f.filled && k.CleanupSell?) then NaturalSellAbsent
        else if !f.buyClaimed then NoSignal
        else NoEntry;
      var second := if f.feesExact && f.ownerLoss >= MAX_OWNER_LOSS then OwnerLossLimitReached else first;
      if f.recovered then Some(RecoveredStreamGap)
      else if second.PassFullRoundTrip? && !f.twoHours then Some(EarlyTermination)
      else if second.PassFullRoundTrip? && !f.chainComplete then Some(PhaseChainUnproven)
      else if second.PassFullRoundTrip? && f.supervised then Some(SupervisedNonPromotion)
      else if second.PassFullRoundTrip? && !f.causalClosure then Some(CausalClosureUnproven)
      else Some(second)
  }

  /** PASS is written for exactly the sessions that earned it in every respect. */
  lemma PassIsEarned(f: Findings)
    ensures ChosenOutcome(f) == Some(PassFullRoundTrip) <==>
              && RoundTrip(f.filled) && f.feesExact && f.ownerLoss < MAX_OWNER_LOSS && !f.recovered
              && f.twoHours && f.chainComplete && !f.supervised && f.causalClosure
    ensures ChosenOutcome(f) == None <==> RoundTrip(f.filled) && !f.feesExact
  {}

  /** Neither a natural round trip nor a BUY sold off by cleanup. */
  predicate NothingRound(filled: set<Kind>) {
    && !(Buy in filled && Sell in filled)
    && !(Buy in filled && exists k :: k in filled && k.CleanupSell?)
  }

  predicate LossReached(f: Findings) { f.feesExact && f.ownerLoss >= 1.0 }

  /** When each outcome is written, in the findings alone; every other value is never written. */
  lemma OutcomeExactly(f: Findings)
    ensures var outcome := ChosenOutcome(f);
            var trip := Buy in f.filled && Sell in f.filled && f.feesExact && f.ownerLoss < 1.0 && !f.recovered;
            && (outcome == None <==> Buy in f.filled && Sell in f.filled && !f.feesExact)
            && (outcome == Some(RecoveredStreamGap) <==> f.recovered && outcome.Some?)
            && (outcome == Some(OwnerLossLimitReached) <==> LossReached(f) && !f.recovered)
            && (outcome == Some(NoSignal) <==> NothingRound(f.filled) && !f.buyClaimed && !LossReached(f) && !f.recovered)
            && (outcome == Some(NoEntry) <==> NothingRound(f.filled) && f.buyClaimed && !LossReached(f) && !f.recovered)
            && (outcome == Some(NaturalSellAbsent) <==>
                  && Buy in f.filled && Sell !in f.filled && (exists k :: k in f.filled && k.CleanupSell?)
                  && !LossReached(f) && !f.recovered)
            && (outcome == Some(EarlyTermination) <==> trip && !f.twoHours)
            && (outcome == Some(PhaseChainUnproven) <==> trip && f.twoHours && !f.chainComplete)
            && (outcome == Some(SupervisedNonPromotion) <==> trip && f.twoHours && f.chainComplete && f.supervised)
            && (outcome == Some(CausalClosureUnproven) <==>
                  trip && f.twoHours && f.chainComplete && !f.supervised && !f.causalClosure)
            && outcome != Some(StartFailedBeforeActivation)
  {}

  // ---- The wiring flag -------------------------------------------------------------------------------

  /** The remaining conjuncts of functionalWiringPassed: what the outcome does not look at. */
  datatype WiringInputs = WiringInputs(
    residual: real, dust: bool, baseTotal: real, baselineBase: real, mark: real, buyQuote: real,
    naturalKinds: seq<Kind>, openEmpty: bool, externalActivityAbsent: bool, verified: bool, sealsPresent: bool)

  predicate OrderCapsProven(w: WiringInputs) {
    && multiset(w.naturalKinds)[Buy] == 1 && multiset(w.naturalKinds)[Sell] == 1 && |w.naturalKinds| == 2
    && w.buyQuote <= MAX_ORDER_NOTIONAL && w.residual * w.mark <= MAX_GROSS_EXPOSURE
  }

  predicate WiringPassed(f: Findings, w: WiringInputs) {
    && RoundTrip(f.filled) && f.twoHours && OrderCapsProven(w) && f.feesExact && f.ownerLoss < MAX_OWNER_LOSS
    && w.baseTotal - w.residual >= w.baselineBase
    && ((w.residual == 0.0 && w.baseTotal >= w.baselineBase) || (w.dust && w.baseTotal - w.residual >= w.baselineBase))
    && (w.residual == 0.0 || w.dust)
    && w.openEmpty && w.externalActivityAbsent && w.verified
    && f.chainComplete && f.causalClosure && !f.recovered && w.sealsPresent
  }

  /**
    The wiring flag and the outcome are computed side by side.  The flag never contradicts a non-PASS
    outcome except one: it does not look at the supervised mode, so a supervised session with causal
    closure would raise it under SUPERVISED_NON_PROMOTION.  No shipped provider answers both: the
    supervised one never claims causal closure, the ordinary one has no assurance mode.
  */
  lemma WiringAgainstOutcome(f: Findings, w: WiringInputs)
    requires WiringPassed(f, w)
    ensures ChosenOutcome(f) == Some(if f.supervised then SupervisedNonPromotion else PassFullRoundTrip)
  {}

  /** Under a sealed PASS the flag adds only the order caps, an empty book and the proofs of the environment. */
  lemma WiringUnderPass(f: Findings, w: WiringInputs)
    requires ChosenOutcome(f) == Some(PassFullRoundTrip)
    requires 0.0 <= w.residual && w.baseTotal - w.baselineBase == w.residual && (w.dust <==> w.residual > 0.0)
    ensures WiringPassed(f, w) <==>
              && multiset(w.naturalKinds) == multiset{Buy, Sell} && w.buyQuote <= 10.0 && w.residual * w.mark <= 10.0
              && w.openEmpty && w.externalActivityAbsent && w.verified && w.sealsPresent
  {
    if OrderCapsProven(w) { OneOfEach(w.naturalKinds); }
    if multiset(w.naturalKinds) == multiset{Buy, Sell} { assert |multiset(w.naturalKinds)| == 2; }
  }

  lemma OneOfEach(kinds: seq<Kind>)
    requires |kinds| == 2 && multiset(kinds)[Buy] == 1 && multiset(kinds)[Sell] == 1
    ensures multiset(kinds) == multiset{Buy, Sell}
  {
    assert kinds == [kinds[0], kinds[1]];
  }

  // ---- The seal --------------------------------------------------------------------------------------

  /** Environment of one finalization. */
  datatype FinalAnswers = FinalAnswers(
    monotonic: Option<real>,
    terminal: Proof,
    supervised: bool,
    causalClosure: bool,
    exclusivityRead: bool,
    records: seq<Record>,
    finalReset: bool)

  /** With every claim required terminal, a reconciliation that does not stop leaves every claim terminal. */
  lemma AllSettled(L: Ledger, truth: AccountTruth, now: real, M: Ledger)
    requires Listed(L) && SettledUpTo(L, |L.order|, truth, true, now, M) && NoStop(L, |L.order|, truth, true)
    ensures AllTerminal(M)
  {
    assert L.order[..|L.order|] == L.order;
    forall k | k in M.rows ensures M.rows[k].state.Terminal() {
      assert k in L.rows && k in L.order;
      SettledIsTerminal(L.rows[k], k, truth, now);
    }
  }

  /** Reconciliation looks at claims, not at the session row. */
  lemma StopsAlike(L: Ledger, M: Ledger, truth: AccountTruth, requireAll: bool)
    requires M.rows == L.rows && M.order == L.order
    ensures NoStop(L, |L.order|, truth, requireAll) <==> NoStop(M, |M.order|, truth, requireAll)
  {}

  lemma SettledIsTerminal(row: ActionRow, k: Kind, truth: AccountTruth, now: real)
    requires !VerdictOn(row, k, truth, true).Stop?
    ensures SettledRow(row, k, truth, true, now).state.Terminal()
  {}

  /** The baseline is where it was, and what is left above it is nothing or provably unorderable. */
  ghost predicate BaselineHeld(truth: AccountTruth, rules: Option<SymbolRules>, baselineBase: real, dust: bool) {
    && ResidualHeld(
         TallyFills(truth.fills).Owned(), truth.baseTotal - baselineBase, truth.recoveryOnly, rules, truth.markPrice, dust)
    && OwnedOpen(truth.open) == []
  }

  /** What a written seal says, about the ledger it is written to and the truth it was taken from. */
  ghost predicate SealSound(e: Evidence, M: Ledger, truth: AccountTruth, rules: Option<SymbolRules>, baselineBase: real) {
    && e.baseTotal == truth.baseTotal && e.ownedResidual == TallyFills(truth.fills).Owned()
    && BaselineHeld(truth, rules, baselineBase, e.residualIsDust)
    && AllTerminal(M) && e.actionCount == |M.order|
    && e.ownerLoss == MetricsOf(truth).ownerLoss && e.feesQuoteExact == MetricsOf(truth).feesExact
    && (e.streamGapRecovered <==> Recovered(M.session, truth))
  }

  function FindingsOf(session: SessionFacts, filled: set<Kind>, truth: AccountTruth, env: FinalAnswers, chain: bool, now: real): Findings {
    Findings(
      filled, session.buyClaimed, MetricsOf(truth).feesExact, MetricsOf(truth).ownerLoss,
      session.recoveryUsed || truth.recoveryOnly,
      TwoHoursComplete(session, truth.observed, env.monotonic, now),
      chain, env.supervised, env.causalClosure)
  }

  /** The legs that count as filled, with exact fills, and the outcome those findings earn; sealing touches nothing it reads. */
  ghost predicate Earned(
    rows: map<Kind, ActionRow>, session: SessionFacts, filled: set<Kind>, outcome: Outcome, truth: AccountTruth, env: FinalAnswers, now: real)
  {
    && (forall k :: k in filled <==> ClosedFilled(rows, truth, k))
    && (forall k :: k in filled ==> FillsExact(truth, k))
    && var chain := Bijective(env.records, Expected(rows, env.terminal), env.terminal);
       ChosenOutcome(FindingsOf(session, filled, truth, env, chain, now)) == Some(outcome)
  }

  /** Every claim as a reconciliation that requires all of them terminal leaves it. */
  ghost function SettledRows(L: Ledger, truth: AccountTruth, now: real): map<Kind, ActionRow> {
    map k | k in L.rows :: SettledRow(L.rows[k], k, truth, true, now)
  }

  /** The filled legs have exact fills, the exclusivity proof is there, and a filled round trip has its fees valued. */
  ghost predicate Judgeable(rows: map<Kind, ActionRow>, truth: AccountTruth, env: FinalAnswers) {
    && env.exclusivityRead
    && (forall k :: k in rows && ClosedFilled(rows, truth, k) ==> FillsExact(truth, k))
    && (ClosedFilled(rows, truth, Buy) && ClosedFilled(rows, truth, Sell) ==> MetricsOf(truth).feesExact)
  }

  /** The residual tests of finalize, after the context has attributed the account. */
  function BaselineVerdict(
    truth: AccountTruth, rules: Option<SymbolRules>, permissionExact: bool, baselineBase: real, recovered: bool): Reply<bool>
  {
    if OwnedOpen(truth.open) != [] then Blocked("owned working order remains")
    else
      ResidualVerdict(
        MetricsOf(truth).ownedQuantity, truth.baseTotal - baselineBase, recovered, rules, permissionExact, truth.markPrice)
  }

  lemma AcceptableBaseline(session: SessionRow, call: Call, truth: AccountTruth, rules: Option<SymbolRules>, dust: bool)
    requires ContextHolds(session, call, truth, true)
    requires BaselineVerdict(truth, rules, call.permissionExact, session.baselineBase, Recovered(session, truth)) == Done(dust)
    ensures BaselineHeld(truth, rules, session.baselineBase, dust)
  {
    AcceptableResidual(
      TallyFills(truth.fills).Owned(), truth.baseTotal - session.baselineBase, session.recoveryUsed, truth.recoveryOnly,
      rules, call.permissionExact, truth.markPrice);
  }

  class SessionFinalizer {
    const ledger: DurableFunctionalLedger
    const service: FunctionalService

    constructor (ledger: DurableFunctionalLedger, service: FunctionalService)
      requires service.ledger == ledger
      ensures this.ledger == ledger && this.service == service
    {
      this.ledger, this.service := ledger, service;
    }

    /** The ledger this finalizer shares with the service lists its claims, and an open capability means nothing is sealed. */
    ghost predicate Valid() reads this, ledger {
      && service.ledger == ledger
      && Listed(ledger.Tables())
      && (ledger.session.capability.Some? ==> SealAllowed(ledger.Tables()))
    }

    /** Context, no owned working order, acceptable residual; `Done(dust)`. */
    method ProveBaseline(call: Call, truth: AccountTruth, rules: Option<SymbolRules>)
      returns (reply: Reply<bool>, ghost moves: seq<Move>)
      requires service.ledger == ledger && (ledger.session.capability.Some? ==> SealAllowed(ledger.Tables()))
      modifies ledger`session
      ensures Moves(old(ledger.Tables()), moves, truth, call.now, ledger.Tables())
      ensures ledger.session.evidence == old(ledger.session).evidence
      ensures reply.Done? <==>
                && ContextHolds(old(ledger.session), call, truth, true)
                && BaselineVerdict(truth, rules, call.permissionExact, old(ledger.session).baselineBase, Recovered(old(ledger.session), truth)).Done?
      ensures reply.Done? ==>
                && ledger.session.capability.Some? && SealAllowed(ledger.Tables())
                && reply == BaselineVerdict(truth, rules, call.permissionExact, old(ledger.session).baselineBase, Recovered(old(ledger.session), truth))
    {
      ghost var L := ledger.Tables();
      var standing;
      standing, moves := service.Context(call, truth, true, false);
      if standing.Blocked? { return Blocked(standing.reason), moves; }
      var baseline, recovered := ledger.session.baselineBase, Recovered(ledger.session, truth);
      assert baseline == L.session.baselineBase && recovered == Recovered(L.session, truth);
      var dust := BaselineVerdict(truth, rules, call.permissionExact, baseline, recovered);
      return dust, moves;
    }

    /** Settle every claim; anything that cannot be settled blocks the seal. */
    method SettleEverything(truth: AccountTruth, now: real, ghost start: Ledger, ghost before: seq<Move>)
      returns (reply: Reply<bool>, ghost moves: seq<Move>)
      requires ledger.session.capability.Some? && Listed(ledger.Tables())
      requires Moves(start, before, truth, now, ledger.Tables())
      modifies ledger`rows
      ensures Moves(start, moves, truth, now, ledger.Tables())
      ensures ledger.rows.Keys == old(ledger.rows).Keys
      ensures reply.Done? <==> NoStop(old(ledger.Tables()), |old(ledger.order)|, truth, true)
      ensures reply.Done? ==> AllTerminal(ledger.Tables()) && ledger.rows == SettledRows(old(ledger.Tables()), truth, now)
    {
      ghost var M := ledger.Tables();
      ghost var settling, settled;
      reply, settling, settled := ReconcileActions(ledger, truth, true, now);
      MovesConcat(start, before, M, settling, ledger.Tables(), truth, now);
      moves := before + settling;
      StopSomewhere(M, M, settled, truth, true);
      if reply.Done? { AllSettled(M, truth, now, ledger.Tables()); }
    }

    /** Attributed, baseline-flat and fully settled. */
    ghost predicate Provable(L: Ledger, call: Call, truth: AccountTruth, rules: Option<SymbolRules>) {
      && ContextHolds(L.session, call, truth, true)
      && BaselineVerdict(truth, rules, call.permissionExact, L.session.baselineBase, Recovered(L.session, truth)).Done?
      && NoStop(L, |L.order|, truth, true)
    }

    /** Everything that must be proven about account and claims before evidence is written; `Done(dust)`. */
    method ProveTerminal(call: Call, truth: AccountTruth, rules: Option<SymbolRules>)
      returns (reply: Reply<bool>, ghost moves: seq<Move>)
      requires Valid()
      modifies ledger`session, ledger`rows
      ensures Moves(old(ledger.Tables()), moves, truth, call.now, ledger.Tables())
      ensures ledger.session.evidence == old(ledger.session).evidence
      ensures ledger.rows.Keys == old(ledger.rows).Keys
      ensures reply.Done? <==> Provable(old(ledger.Tables()), call, truth, rules)
      ensures reply.Done? ==>
                && ledger.session.capability.Some? && SealAllowed(ledger.Tables()) && AllTerminal(ledger.Tables())
                && ledger.rows == SettledRows(old(ledger.Tables()), truth, call.now)
                && BaselineHeld(truth, rules, old(ledger.session).baselineBase, reply.value)
    {
      reply, moves := ProveBaseline(call, truth, rules);
      if reply.Blocked? { return; }
      ghost var M := ledger.Tables();
      var settled;
      settled, moves := SettleEverything(truth, call.now, old(ledger.Tables()), moves);
      StopsAlike(old(ledger.Tables()), M, truth, true);
      if settled.Blocked? { return Blocked(settled.reason), moves; }
      AcceptableBaseline(old(ledger.session), call, truth, rules, reply.value);
    }

    /** Filled legs, phase chain and outcome, without touching the ledger. */
    method Judge(call: Call, truth: AccountTruth, env: FinalAnswers) returns (reply: Reply<(set<Kind>, Outcome)>)
      requires forall k :: k in ledger.order <==> k in ledger.rows
      ensures reply.Done? <==> Judgeable(ledger.rows, truth, env)
      ensures reply.Done? ==>
                Earned(ledger.rows, FactsOf(ledger.session), reply.value.0, reply.value.1, truth, env, call.now)
    {
      var filled := CollectFilled(ledger.order, ledger.rows, truth);
      if filled.Blocked? { return Blocked(filled.reason); }
      if !env.exclusivityRead { return Blocked("terminal exclusivity proof is missing"); }
      var chain := PhaseChainComplete(env.records, Expected(ledger.rows, env.terminal), env.terminal);
      var outcome := ChosenOutcome(FindingsOf(FactsOf(ledger.session), filled.value, truth, env, chain, call.now));
      if outcome == None { return Blocked("full round-trip fee valuation is incomplete"); }
      return Done((filled.value, outcome.value));
    }

    /** Build the evidence and seal it with the capability gone. */
    method WriteSeal(
      truth: AccountTruth, dust: bool, filled: set<Kind>, outcome: Outcome, prepareOnly: bool, now: real,
      ghost start: Ledger, ghost before: seq<Move>)
      returns (evidence: Evidence, ghost moves: seq<Move>)
      requires ledger.session.capability.Some? && SealAllowed(ledger.Tables()) && AllTerminal(ledger.Tables())
      requires Moves(start, before, truth, now, ledger.Tables())
      modifies ledger`session
      ensures ledger.Tables() == WithSeal(old(ledger.Tables()), if prepareOnly then FinalPrepared else Finalized, evidence)
      ensures moves == before + [Move.Seal(evidence, prepareOnly)] && Moves(start, moves, truth, now, ledger.Tables())
      ensures evidence == Evidence(
                outcome, truth.baseTotal, TallyFills(truth.fills).Owned(), dust,
                MetricsOf(truth).ownerLoss, MetricsOf(truth).feesExact,
                Recovered(old(ledger.session), truth), filled, |ledger.order|)
    {
      var metrics := MetricsOf(truth);
      evidence := Evidence(
        outcome, truth.baseTotal, metrics.ownedQuantity, dust, metrics.ownerLoss, metrics.feesExact,
        Recovered(ledger.session, truth), filled, |ledger.order|);
      MovesAppend(start, before, truth, now, ledger.Tables(), Move.Seal(evidence, prepareOnly));
      moves := before + [Move.Seal(evidence, prepareOnly)];
      var sealed := ledger.SealFinal(prepareOnly, evidence);
    }

    /**
      Write the final evidence.  Whatever is sealed is sound, its outcome is the one its findings
      earn, and the session it seals has no capability left; when nothing is sealed, nothing is.
    */
    method Finalize(call: Call, truth: AccountTruth, rules: Option<SymbolRules>, env: FinalAnswers, prepareOnly: bool)
      returns (reply: Reply<Evidence>, ghost moves: seq<Move>)
      requires Valid()
      modifies ledger`session, ledger`rows
      ensures Moves(old(ledger.Tables()), moves, truth, call.now, ledger.Tables())
      ensures reply.Done? ==>
                && ledger.session.evidence == Some(reply.value) && ledger.session.capability == None
                && ledger.session.state == (if prepareOnly then FinalPrepared else Finalized)
                && SealSound(reply.value, ledger.Tables(), truth, rules, old(ledger.session).baselineBase)
                && moves != [] && moves[|moves| - 1] == Move.Seal(reply.value, prepareOnly)
      ensures reply.Done? ==> Earned(ledger.rows, FactsOf(ledger.session), reply.value.filledKinds, reply.value.outcome, truth, env, call.now)
      ensures reply.Blocked? ==> ledger.session.evidence == old(ledger.session).evidence
      ensures reply.Done? <==>
                && Provable(old(ledger.Tables()), call, truth, rules) && env.finalReset
                && Judgeable(SettledRows(old(ledger.Tables()), truth, call.now), truth, env)
    {
      var dust;
      dust, moves := ProveTerminal(call, truth, rules);
      if dust.Blocked? { return Blocked(dust.reason), moves; }
      var judged := Judge(call, truth, env);
      if judged.Blocked? { return Blocked(judged.reason), moves; }
      if !env.finalReset { return Blocked("final authority reset is missing"), moves; }
      var evidence;
      evidence, moves := WriteSeal(
        truth, dust.value, judged.value.0, judged.value.1, prepareOnly, call.now, old(ledger.Tables()), moves);
      return Done(evidence), moves;
    }
  }

  // ---- What a seal means over a whole run ---------------------------------------------------------------

  /** The natural leg's order, as the sealed truth closes it: filled, with its own fills adding up. */
  ghost predicate LegProven(M: Ledger, truth: AccountTruth, records: seq<Record>, k: Kind) {
    && ClosedFilled(M.rows, truth, k) && FillsExact(truth, k)
    && exists i :: 0 <= i < |records| && records[i].proof.Some?
         && records[i].proof.value.boundary == PrePostBoundary(k)
         && records[i].proof.value.boundarySeal == ActionSeal(M.rows[k].action)
  }

  /** The truth closes the leg's order as FILLED, with a positive amount its own fills add up to. */
  ghost predicate LegFilled(M: Ledger, truth: AccountTruth, k: Kind) {
    && k in M.rows && M.rows[k].state.Reconciled?
    && exists row :: row in truth.closed && row.client == Owned(k) && row.status.Filled?
         && 0.0 < row.executedQty == Executed(truth.fills, k) && 0.0 < row.executedQuote == ExecutedQuote(truth.fills, k)
  }

  /**
    What a sealed outcome other than PASS says about the ledger it was sealed on: no signal means no
    BUY was ever claimed, no entry that one was and came to nothing, a missing natural SELL that the BUY
    filled and cleanup sold it.
  */
  lemma SealedOutcomeMeans(M: Ledger, e: Evidence, truth: AccountTruth, env: FinalAnswers, now: real)
    requires CountersExact(M) && Earned(M.rows, FactsOf(M.session), e.filledKinds, e.outcome, truth, env, now)
    ensures e.outcome.NoSignal? ==> Buy !in M.rows
    ensures e.outcome.NoEntry? ==> Buy in M.rows && NothingRound(e.filledKinds)
    ensures e.outcome.NaturalSellAbsent? ==>
              LegFilled(M, truth, Buy) && Sell !in e.filledKinds && exists k: Kind :: k.CleanupSell? && LegFilled(M, truth, k)
    ensures e.outcome.OwnerLossLimitReached? ==> MetricsOf(truth).ownerLoss >= 1.0
    ensures e.outcome.RecoveredStreamGap? <==> Recovered(M.session, truth)
    ensures e.outcome.EarlyTermination? || e.outcome.PhaseChainUnproven? || e.outcome.SupervisedNonPromotion?
            || e.outcome.CausalClosureUnproven? || e.outcome.PassFullRoundTrip? ==>
              LegFilled(M, truth, Buy) && LegFilled(M, truth, Sell)
  {
    var chain := Bijective(env.records, Expected(M.rows, env.terminal), env.terminal);
    OutcomeExactly(FindingsOf(FactsOf(M.session), e.filledKinds, truth, env, chain, now));
    forall k | k in e.filledKinds ensures LegFilled(M, truth, k) { FilledIsFilled(M, truth, k); }
  }

  /** When each outcome is sealed, in the ledger it is sealed on, the truth and the answers of the environment. */
  lemma SealedOutcomeExactly(M: Ledger, e: Evidence, truth: AccountTruth, env: FinalAnswers, now: real)
    requires CountersExact(M) && Earned(M.rows, FactsOf(M.session), e.filledKinds, e.outcome, truth, env, now)
    ensures var recovered := M.session.recoveryUsed || truth.recoveryOnly;
            var lost := MetricsOf(truth).feesExact && MetricsOf(truth).ownerLoss >= 1.0;
            var natural := Buy in e.filledKinds && Sell in e.filledKinds && !lost && !recovered;
            var timed := FullRuntime(M.session.started, M.session.expires, truth.observed, env.monotonic, now);
            var chain := Bijective(env.records, Expected(M.rows, env.terminal), env.terminal);
            && (e.outcome == RecoveredStreamGap <==> recovered)
            && (e.outcome == OwnerLossLimitReached <==> lost && !recovered)
            && (e.outcome == NoSignal <==> Buy !in M.rows && !lost && !recovered)
            && (e.outcome == NoEntry <==> Buy in M.rows && NothingRound(e.filledKinds) && !lost && !recovered)
            && (e.outcome == NaturalSellAbsent <==>
                  && Buy in e.filledKinds && Sell !in e.filledKinds && (exists k :: k in e.filledKinds && k.CleanupSell?)
                  && !lost && !recovered)
            && (e.outcome == EarlyTermination <==> natural && !timed)
            && (e.outcome == PhaseChainUnproven <==> natural && timed && !chain)
            && (e.outcome == SupervisedNonPromotion <==> natural && timed && chain && env.supervised)
            && (e.outcome == CausalClosureUnproven <==> natural && timed && chain && !env.supervised && !env.causalClosure)
            && (e.outcome == PassFullRoundTrip <==> natural && timed && chain && !env.supervised && env.causalClosure)
  {
    var chain := Bijective(env.records, Expected(M.rows, env.terminal), env.terminal);
    var f := FindingsOf(FactsOf(M.session), e.filledKinds, truth, env, chain, now);
    OutcomeExactly(f);
    PassIsEarned(f);
    TwoHoursExactly(FactsOf(M.session), truth.observed, env.monotonic, now);
    assert Buy in M.rows <==> f.buyClaimed;
  }

  lemma FilledIsFilled(M: Ledger, truth: AccountTruth, k: Kind)
    requires ClosedFilled(M.rows, truth, k) && FillsExact(truth, k)
    ensures LegFilled(M, truth, k)
  {
    assert LastClosed(truth.closed, k).value in truth.closed;
  }

  /** PASS_FULL_ROUND_TRIP implies everything the lane exists to prove. */
  lemma PassMeans(M: Ledger, e: Evidence, truth: AccountTruth, rules: Option<SymbolRules>, env: FinalAnswers, baselineBase: real, now: real)
    requires SealSound(e, M, truth, rules, baselineBase) && e.outcome.PassFullRoundTrip?
    requires Earned(M.rows, FactsOf(M.session), e.filledKinds, e.outcome, truth, env, now)
    ensures LegProven(M, truth, env.records, Buy) && LegProven(M, truth, env.records, Sell)
    ensures truth.baseTotal - baselineBase == e.ownedResidual
    ensures MetricsOf(truth).feesExact && MetricsOf(truth).ownerLoss < MAX_OWNER_LOSS && !e.streamGapRecovered
    ensures now - M.session.started >= PERMIT_SECONDS && truth.observed - M.session.started >= PERMIT_SECONDS
    ensures Bijective(env.records, Expected(M.rows, env.terminal), env.terminal)
    ensures exists i :: 0 <= i < |env.records| && env.records[i].proof == Some(env.terminal)
  {
    var chain := Bijective(env.records, Expected(M.rows, env.terminal), env.terminal);
    PassIsEarned(FindingsOf(FactsOf(M.session), e.filledKinds, truth, env, chain, now));
    EveryLegSealedOnce(env.records, M.rows, env.terminal, Buy);
    EveryLegSealedOnce(env.records, M.rows, env.terminal, Sell);
    RecordOf(M, truth, env, Buy);
    RecordOf(M, truth, env, Sell);
  }

  lemma RecordOf(M: Ledger, truth: AccountTruth, env: FinalAnswers, k: Kind)
    requires Bijective(env.records, Expected(M.rows, env.terminal), env.terminal)
    requires k.Natural() && ClosedFilled(M.rows, truth, k) && FillsExact(truth, k)
    ensures LegProven(M, truth, env.records, k)
  {
    EveryLegSealedOnce(env.records, M.rows, env.terminal, k);
    var i :| 0 <= i < |env.records| && env.records[i].proof.value.boundary == PrePostBoundary(k)
             && env.records[i].proof.value.boundarySeal == ActionSeal(M.rows[k].action);
    assert Verifies(env.records[i], Expected(M.rows, env.terminal), env.terminal);
  }

  /**
    The sealed residual is what the account still owns, on every continuation: the snapshot the seal
    was taken from already held every fill there will ever be.
  */
  lemma SealedResidualIsFinal(s: System, truth: AccountTruth, seen: Exchange, e: Evidence, prepareOnly: bool, after: seq<Step>)
    requires Kept(s) && StepLegal(s, Service(Move.Seal(e, prepareOnly), truth, seen))
    requires e.ownedResidual == TallyFills(truth.fills).Owned()
    requires Run(StepAfter(s, Service(Move.Seal(e, prepareOnly), truth, seen)), after)
    ensures var end := RunEnd(StepAfter(s, Service(Move.Seal(e, prepareOnly), truth, seen)), after);
            && OwnedQuantity(end.exchange.fills) == e.ownedResidual
            && end.ledger.session.evidence == Some(e)
  {
    var seal := Service(Move.Seal(e, prepareOnly), truth, seen);
    var sealed := StepAfter(s, seal);
    StepKept(s, seal);
    FinalStaysFinal(sealed, after);
    FinalFreezesAccount(sealed, after);
    TerminalClaimsFreezeFills(s, seen);
    TruthOwnedQuantity(truth, seen);
  }
}
