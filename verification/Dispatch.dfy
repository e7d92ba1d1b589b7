/**
  Crossing the POST boundary for one durable claim (dispatch_claim).

  Every way through the method, with every answer the environment and the edge can give, is a run of
  the protocol.  The outcome it reports is decided by the durable claim, not by the exception class.
*/
module ClaimDispatch {
  import opened FunctionalVocabulary
  import opened OwnerMetrics
  import opened SymbolFilters
  import opened DurableLedger
  import opened ExchangeModel
  import opened OrderProtocol
  import opened ServiceRuns
  import opened Reconciliation
  import opened ContinuousFunctionalService
  import opened FunctionalMutationEdge

  /** Answers besides the account truth: authority before SUBMITTING, the final re-reads after it, the edge, the receipt. */
  datatype DispatchAnswers = DispatchAnswers(authority: bool, finalChecks: bool, edge: Answers, receiptExact: bool)

  datatype DispatchOutcome = NotSentOutcome | OutcomeAmbiguous | AcknowledgedOutcome(orderId: nat)

  /** What a dispatch came to: raising before SUBMITTING leaves the claim NOT_SENT too. */
  function OutcomeOf(reply: Reply<DispatchOutcome>): DispatchOutcome { if reply.Blocked? then NotSentOutcome else reply.value }

  /** The outcome is the one the durable claim records. */
  predicate Recorded(M: Ledger, k: Kind, outcome: DispatchOutcome) {
    && k in M.rows
    && match outcome
       case NotSentOutcome => M.rows[k].state.NotSent? && M.session.state.CleanupOnly?
       case OutcomeAmbiguous => M.rows[k].state.ReconciliationRequired? && M.session.state.NeedsReconciliation?
       case AcknowledgedOutcome(_) => M.rows[k].state.Acknowledged?
  }

  /** NOT_SENT is never said of a claim that was sent, ACKNOWLEDGED never of one that was not. */
  predicate TransportFits(outcome: DispatchOutcome, sent: bool) {
    (outcome.NotSentOutcome? ==> !sent) && (outcome.AcknowledgedOutcome? ==> sent)
  }

  /** The re-check of the sealed action against the fresh truth. */
  predicate StillExact(a: SealedAction, truth: AccountTruth, rules: SymbolRules, call: Call, expires: real) {
    match a.kind
    case Buy => call.now < expires && rules.Parsed() && call.permissionExact && rules.BuyNotionalAllowed(a.quoteOrderQty)
    case Cancel(_) => a.target.Some? && |RowsOf(truth.open, Owned(a.target.value), Some(a.targetOrderId))| == 1
    case _ =>
      && rules.Parsed() && call.permissionExact
      && rules.NormalizeFlatten(TallyFills(truth.fills).Owned()) == Done(a.quantity)
      && truth.baseAvailable >= a.quantity
  }

  /** Context, exactness and authority hold before SUBMITTING. */
  predicate Dispatchable(session: SessionRow, call: Call, truth: AccountTruth, rules: SymbolRules, a: SealedAction, authority: bool) {
    authority && ContextHolds(session, call, truth, a.kind.ForCleanup()) && StillExact(a, truth, rules, call, session.expires)
  }

  /** Every answer of the environment lets the edge set the marker. */
  predicate EdgeCrosses(a: SealedAction, env: Answers) {
    && env.productionAvailable && env.reserved && env.leaseActive && env.authorityExact && env.requestReady
    && (a.kind.Cancel? || a.kind.CleanupSell? || env.healthy)
  }

  /** And then enter the transport. */
  predicate EdgeLetsThrough(a: SealedAction, env: Answers) { EdgeCrosses(a, env) && env.markerReadBack && env.leaseStillActive }

  /** What a dispatch reports: NOT_SENT exactly when the marker was never set, ACKNOWLEDGED exactly for a clean, exact receipt. */
  predicate OutcomeFits(outcome: DispatchOutcome, checked: bool, a: SealedAction, env: DispatchAnswers) {
    && (outcome.NotSentOutcome? <==> !(checked && env.finalChecks && EdgeCrosses(a, env.edge)))
    && (outcome.AcknowledgedOutcome? <==>
          && checked && env.finalChecks && EdgeLetsThrough(a, env.edge)
          && env.edge.response.OrderBody? && env.edge.release.CleanRelease? && env.receiptExact)
    && (outcome.AcknowledgedOutcome? ==> outcome.orderId == env.edge.response.orderId)
  }

  lemma SendsOnceOpened(L: Ledger, k: Kind, a: SealedAction, env: Answers)
    requires SealedForSubmit(L, k, a) && L.rows[k].postMarker == None
    ensures Crosses(L, k, a, env) <==> EdgeCrosses(a, env)
    ensures Sends(L, k, a, env) <==> EdgeLetsThrough(a, env)
  {}

  lemma ExactSellIsCovered(a: SealedAction, truth: AccountTruth, rules: SymbolRules)
    requires rules.Parsed() && TallyFills(truth.fills).Owned() >= 0.0
    requires rules.NormalizeFlatten(TallyFills(truth.fills).Owned()) == Done(a.quantity)
    ensures a.quantity <= OwnedQuantity(truth.fills)
  {
    FlattenProgress(rules, TallyFills(truth.fills).Owned(), 1.0);
  }

  lemma ExactCancelIsWorking(truth: AccountTruth, target: Kind, orderId: nat)
    requires |RowsOf(truth.open, Owned(target), Some(orderId))| == 1
    ensures SeenWorking(truth, target, orderId)
  {
    var matches := RowsOf(truth.open, Owned(target), Some(orderId));
    assert matches[0] in matches;
  }

  /** StillExact is what the protocol demands before SUBMITTING. */
  lemma StillExactIsChecked(L: Ledger, a: SealedAction, truth: AccountTruth, rules: SymbolRules, call: Call)
    requires L.session.capability.Some? && StillExact(a, truth, rules, call, L.session.expires)
    requires TallyFills(truth.fills).Owned() >= 0.0
    ensures DispatchChecked(L, a, truth, call.now)
  {
    match a.kind
    case Buy =>
    case Cancel(_) => ExactCancelIsWorking(truth, a.target.value, a.targetOrderId);
    case _ => ExactSellIsCovered(a, truth, rules);
  }

  // ---- The run behind the call --------------------------------------------------------------------

  /** `steps` is a run from `s`, and this is where it stands. */
  ghost predicate Tracked(
    s: System, steps: seq<Step>, truth: AccountTruth, seen: Exchange, L: Ledger, position: Position, sends: multiset<Kind>)
  {
    && Run(s, steps)
    && var t := RunEnd(s, steps);
       Fresh(t, truth, seen) && t.now == s.now && t.ledger == L && t.position == position && t.sends == sends
  }

  /** One dispatch move further. */
  lemma Track(
    s: System, steps: seq<Step>, truth: AccountTruth, seen: Exchange, L: Ledger, position: Position, sends: multiset<Kind>,
    m: DispatchMove)
    requires Tracked(s, steps, truth, seen, L, position, sends)
    requires DispatchLegal(RunEnd(s, steps), m, truth) && Timely(RunEnd(s, steps), m)
    ensures var t := DispatchAfter(RunEnd(s, steps), m, truth);
            Tracked(s, steps + [Dispatch(m, truth, seen)], truth, seen, t.ledger, t.position, t.sends)
  {
    var t := RunEnd(s, steps);
    var step := Dispatch(m, truth, seen);
    RunAppend(s, steps, step);
    StaysFresh(t, m, truth, seen);
  }

  lemma StaysFresh(t: System, m: DispatchMove, truth: AccountTruth, seen: Exchange)
    requires Fresh(t, truth, seen) && DispatchLegal(t, m, truth)
    ensures Fresh(StepAfter(t, Dispatch(m, truth, seen)), truth, seen)
  {
    ExtendsReflexive(seen);
  }

  class ClaimDispatcher {
    const ledger: DurableFunctionalLedger
    const service: FunctionalService
    const edge: MutationEdge

    constructor (ledger: DurableFunctionalLedger, service: FunctionalService, edge: MutationEdge)
      requires service.ledger == ledger && edge.ledger == ledger
      ensures this.ledger == ledger && this.service == service && this.edge == edge
    {
      this.ledger, this.service, this.edge := ledger, service, edge;
    }

    ghost predicate Wired() { service.ledger == ledger && edge.ledger == ledger }

    /** Context and StillExact; a stream gap is latched even when the dispatch is then refused. */
    method PreSubmit(
      call: Call, truth: AccountTruth, rules: SymbolRules, a: SealedAction, authority: bool, ghost s: System, ghost seen: Exchange)
      returns (ready: bool, ghost steps: seq<Step>)
      requires Wired() && s.ledger == ledger.Tables() && s.position.Idle? && s.now == call.now && Fresh(s, truth, seen)
      modifies ledger`session
      ensures Tracked(s, steps, truth, seen, ledger.Tables(), Idle, s.sends)
      ensures ready <==> Dispatchable(old(ledger.session), call, truth, rules, a, authority)
      ensures ready ==> DispatchChecked(ledger.Tables(), a, truth, call.now)
    {
      var standing, moves := service.Context(call, truth, a.kind.ForCleanup(), false);
      CallIsRun(s, moves, truth, seen, ledger.Tables());
      steps := ServiceSteps(moves, truth, seen);
      ready := standing.Done? && StillExact(a, truth, rules, call, ledger.session.expires) && authority;
      if ready {
        StillExactIsChecked(ledger.Tables(), a, truth, rules, call);
      }
    }

    /** Exactly when this dispatch enters the transport. */
    ghost predicate TransportEntered(L: Ledger, call: Call, truth: AccountTruth, rules: SymbolRules, k: Kind, env: DispatchAnswers)
      requires k in L.rows
    {
      && Dispatchable(L.session, call, truth, rules, L.rows[k].action, env.authority)
      && env.finalChecks && EdgeLetsThrough(L.rows[k].action, env.edge)
    }

    /** Settle the claim as NOT_SENT and put the session into cleanup. */
    method SettleNotSent(
      k: Kind, expected: ActionState, now: real,
      ghost s: System, ghost before: seq<Step>, ghost truth: AccountTruth, ghost seen: Exchange, ghost sends: multiset<Kind>)
      returns (ghost steps: seq<Step>)
      requires InState(ledger.Tables(), k, expected) && now == s.now
      requires || (expected.Claimed? && Tracked(s, before, truth, seen, ledger.Tables(), Idle, sends))
               || (expected.Submitting? && Tracked(s, before, truth, seen, ledger.Tables(), Opened(k), sends))
      modifies ledger`rows, ledger`session
      ensures Tracked(s, steps, truth, seen, ledger.Tables(), Idle, sends)
      ensures ledger.Tables() ==
                WithSessionState(WithTransition(old(ledger.Tables()), k, NotSent, now), CleanupOnly, false)
    {
      ghost var L := ledger.Tables();
      ghost var m := if expected.Claimed? then Refuse(k) else Withdraw(k);
      var moved := ledger.TransitionAction(k, expected, NotSent, now);
      Track(s, before, truth, seen, L, if expected.Claimed? then Idle else Opened(k), sends, m);
      steps := before + [Dispatch(m, truth, seen)];
      Track(s, steps, truth, seen, ledger.Tables(), Refused(CleanupOnly), sends, Fallback);
      steps := steps + [Dispatch(Fallback, truth, seen)];
      ledger.SetSessionState(CleanupOnly, false);
    }

    /** Record that the outcome of a marked claim is unknown. */
    method SettleAmbiguous(
      k: Kind, now: real,
      ghost s: System, ghost before: seq<Step>, ghost truth: AccountTruth, ghost seen: Exchange, ghost position: Position,
      ghost sends: multiset<Kind>)
      returns (ghost steps: seq<Step>)
      requires InState(ledger.Tables(), k, PostMayHaveCrossed) && now == s.now
      requires position == Marked(k) || position == Sent(k)
      requires Tracked(s, before, truth, seen, ledger.Tables(), position, sends)
      modifies ledger`rows, ledger`session
      ensures Tracked(s, steps, truth, seen, ledger.Tables(), Idle, sends)
      ensures ledger.Tables() ==
                WithSessionState(WithTransition(old(ledger.Tables()), k, ActionState.ReconciliationRequired, now), NeedsReconciliation, false)
    {
      ghost var L := ledger.Tables();
      var moved := ledger.TransitionAction(k, PostMayHaveCrossed, ActionState.ReconciliationRequired, now);
      Track(s, before, truth, seen, L, position, sends, OutcomeUnknown(k));
      steps := before + [Dispatch(OutcomeUnknown(k), truth, seen)];
      Track(s, steps, truth, seen, ledger.Tables(), Refused(NeedsReconciliation), sends, Fallback);
      steps := steps + [Dispatch(Fallback, truth, seen)];
      ledger.SetSessionState(NeedsReconciliation, false);
    }

    /** Record that a sent claim was acknowledged. */
    method SettleAcknowledged(
      k: Kind, now: real,
      ghost s: System, ghost before: seq<Step>, ghost truth: AccountTruth, ghost seen: Exchange, ghost sends: multiset<Kind>)
      returns (ghost steps: seq<Step>)
      requires InState(ledger.Tables(), k, PostMayHaveCrossed) && now == s.now
      requires Tracked(s, before, truth, seen, ledger.Tables(), Sent(k), sends)
      modifies ledger`rows
      ensures Tracked(s, steps, truth, seen, ledger.Tables(), Idle, sends)
      ensures ledger.Tables() == WithTransition(old(ledger.Tables()), k, ActionState.Acknowledged, now)
    {
      ghost var L := ledger.Tables();
      var moved := ledger.TransitionAction(k, PostMayHaveCrossed, ActionState.Acknowledged, now);
      Track(s, before, truth, seen, L, Sent(k), sends, Acknowledge(k));
      steps := before + [Dispatch(Acknowledge(k), truth, seen)];
    }

    /** Commit SUBMITTING. */
    method OpenClaim(k: Kind, ghost s: System, ghost before: seq<Step>, ghost truth: AccountTruth, ghost seen: Exchange, now: real)
      returns (ghost steps: seq<Step>)
      requires InState(ledger.Tables(), k, ActionState.Claimed) && now == s.now
      requires DispatchChecked(ledger.Tables(), ledger.rows[k].action, truth, now)
      requires Tracked(s, before, truth, seen, ledger.Tables(), Idle, s.sends)
      modifies ledger`rows
      ensures ledger.Tables() == WithTransition(old(ledger.Tables()), k, Submitting, now)
      ensures Tracked(s, steps, truth, seen, ledger.Tables(), Opened(k), s.sends)
    {
      ghost var L := ledger.Tables();
      var moved := ledger.TransitionAction(k, ActionState.Claimed, Submitting, now);
      Track(s, before, truth, seen, L, Idle, s.sends, Open(k));
      steps := before + [Dispatch(Open(k), truth, seen)];
    }

    /** The edge's marker and transport entry as protocol moves. */
    ghost method CrossingSteps(
      k: Kind, a: SealedAction, env: Answers, L: Ledger,
      s: System, before: seq<Step>, truth: AccountTruth, seen: Exchange, sends: multiset<Kind>)
      returns (steps: seq<Step>, position: Position)
      requires Tracked(s, before, truth, seen, L, Opened(k), sends) && Crosses(L, k, a, env)
      ensures position == if Sends(L, k, a, env) then Sent(k) else Marked(k)
      ensures Tracked(s, steps, truth, seen, WithMarker(L, k, s.now), position,
                      sends + (if Sends(L, k, a, env) then multiset{k} else multiset{}))
    {
      Track(s, before, truth, seen, L, Opened(k), sends, Mark(k));
      steps := before + [Dispatch(Mark(k), truth, seen)];
      position := Marked(k);
      if Sends(L, k, a, env) {
        var send := Send(k, s.now + NONACCEPTANCE_MIN_AGE);
        Track(s, steps, truth, seen, WithMarker(L, k, s.now), position, sends, send);
        steps := steps + [Dispatch(send, truth, seen)];
        position := Sent(k);
      }
    }

    /** From SUBMITTING on: the final re-reads, the edge, and the classification of what came back. */
    method Cross(
      k: Kind, a: SealedAction, env: DispatchAnswers, now: real,
      ghost s: System, ghost before: seq<Step>, ghost truth: AccountTruth, ghost seen: Exchange)
      returns (outcome: DispatchOutcome, ghost steps: seq<Step>)
      requires Wired() && now == s.now
      requires SealedForSubmit(ledger.Tables(), k, a) && ledger.rows[k].postMarker == None
      requires Tracked(s, before, truth, seen, ledger.Tables(), Opened(k), s.sends)
      modifies ledger`rows, ledger`session, edge`transport
      ensures var sent := env.finalChecks && EdgeLetsThrough(a, env.edge);
              && edge.transport == old(edge.transport) + (if sent then [k] else [])
              && Tracked(s, steps, truth, seen, ledger.Tables(), Idle, s.sends + (if sent then multiset{k} else multiset{}))
      ensures ledger.rows.Keys == old(ledger.rows).Keys
      ensures Recorded(ledger.Tables(), k, outcome) && TransportFits(outcome, env.finalChecks && EdgeLetsThrough(a, env.edge))
      ensures OutcomeFits(outcome, true, a, env)
    {
      SendsOnceOpened(ledger.Tables(), k, a, env.edge);
      if !env.finalChecks {
        steps := SettleNotSent(k, Submitting, now, s, before, truth, seen, s.sends);
        return NotSentOutcome, steps;
      }
      ghost var L := ledger.Tables();
      var reply := edge.Invoke(k, a, env.edge, now);
      if ledger.rows[k].state == Submitting {
        assert reply.RaisedNotSent?;
        steps := SettleNotSent(k, Submitting, now, s, before, truth, seen, s.sends);
        return NotSentOutcome, steps;
      }
      ghost var position;
      steps, position := CrossingSteps(k, a, env.edge, L, s, before, truth, seen, s.sends);
      ghost var sends := s.sends + (if Sends(L, k, a, env.edge) then multiset{k} else multiset{});
      if !reply.OrderReceipt? || !env.receiptExact {
        steps := SettleAmbiguous(k, now, s, steps, truth, seen, position, sends);
        return OutcomeAmbiguous, steps;
      }
      steps := SettleAcknowledged(k, now, s, steps, truth, seen, sends);
      return AcknowledgedOutcome(reply.orderId), steps;
    }

    /** Commit SUBMITTING when everything holds; otherwise NOT_SENT, without the transport in sight. */
    method OpenOrRefuse(
      call: Call, truth: AccountTruth, rules: SymbolRules, k: Kind, a: SealedAction, authority: bool, ghost s: System, ghost seen: Exchange)
      returns (submitting: bool, ghost steps: seq<Step>)
      requires Wired() && s.ledger == ledger.Tables() && s.position.Idle? && s.now == call.now && Fresh(s, truth, seen)
      requires InState(ledger.Tables(), k, ActionState.Claimed) && ledger.rows[k].action == a && ledger.rows[k].postMarker == None
      modifies ledger`rows, ledger`session
      ensures ledger.rows.Keys == old(ledger.rows).Keys
      ensures submitting <==> Dispatchable(old(ledger.session), call, truth, rules, a, authority)
      ensures Tracked(s, steps, truth, seen, ledger.Tables(), if submitting then Opened(k) else Idle, s.sends)
      ensures if submitting then SealedForSubmit(ledger.Tables(), k, a) && ledger.rows[k].postMarker == None
              else Recorded(ledger.Tables(), k, NotSentOutcome)
    {
      submitting, steps := PreSubmit(call, truth, rules, a, authority, s, seen);
      if submitting {
        steps := OpenClaim(k, s, steps, truth, seen, call.now);
      } else {
        steps := SettleNotSent(k, ActionState.Claimed, call.now, s, steps, truth, seen, s.sends);
      }
    }

    /** The dispatch of a claim read as CLAIMED. */
    method DispatchClaimed(
      call: Call, truth: AccountTruth, rules: SymbolRules, k: Kind, env: DispatchAnswers, ghost s: System, ghost seen: Exchange)
      returns (reply: Reply<DispatchOutcome>, ghost steps: seq<Step>)
      requires Wired() && s.ledger == ledger.Tables() && s.position.Idle? && s.now == call.now && Fresh(s, truth, seen)
      requires InState(ledger.Tables(), k, ActionState.Claimed) && ledger.rows[k].postMarker == None
      modifies ledger`rows, ledger`session, edge`transport
      ensures ledger.rows.Keys == old(ledger.rows).Keys && Recorded(ledger.Tables(), k, OutcomeOf(reply))
      ensures TransportFits(OutcomeOf(reply), TransportEntered(old(ledger.Tables()), call, truth, rules, k, env))
      ensures var a := old(ledger.rows)[k].action;
              OutcomeFits(OutcomeOf(reply), Dispatchable(old(ledger.session), call, truth, rules, a, env.authority), a, env)
      ensures var sent := TransportEntered(old(ledger.Tables()), call, truth, rules, k, env);
              && edge.transport == old(edge.transport) + (if sent then [k] else [])
              && Tracked(s, steps, truth, seen, ledger.Tables(), Idle, s.sends + (if sent then multiset{k} else multiset{}))
    {
      var a := ledger.rows[k].action;
      var submitting;
      submitting, steps := OpenOrRefuse(call, truth, rules, k, a, env.authority, s, seen);
      if !submitting { return Blocked("dispatch checks failed before SUBMITTING"), steps; }
      var outcome;
      outcome, steps := Cross(k, a, env, call.now, s, steps, truth, seen);
      return Done(outcome), steps;
    }

    /**
      Dispatch one CLAIMED action.  The transport is entered exactly when every check passes and the
      marker is won; then the claim ends ACKNOWLEDGED or RECONCILIATION_REQUIRED, otherwise NOT_SENT
      with the session in cleanup.  A claim in any other state is left alone.
    */
    method DispatchClaim(
      call: Call, truth: AccountTruth, rules: SymbolRules, k: Kind, env: DispatchAnswers, ghost s: System, ghost seen: Exchange)
      returns (reply: Reply<DispatchOutcome>, ghost steps: seq<Step>)
      requires Wired() && s.ledger == ledger.Tables() && s.position.Idle? && s.now == call.now && Fresh(s, truth, seen)
      requires k in ledger.rows && ledger.rows[k].state.Claimed? ==>
                 ledger.rows[k].action.kind == k && ledger.rows[k].postMarker == None
      modifies ledger`rows, ledger`session, edge`transport
      ensures InState(old(ledger.Tables()), k, ActionState.Claimed) ==>
                && ledger.rows.Keys == old(ledger.rows).Keys && Recorded(ledger.Tables(), k, OutcomeOf(reply))
                && var sent := TransportEntered(old(ledger.Tables()), call, truth, rules, k, env);
                   && edge.transport == old(edge.transport) + (if sent then [k] else [])
                   && TransportFits(OutcomeOf(reply), sent)
      ensures InState(old(ledger.Tables()), k, ActionState.Claimed) ==>
                var a := old(ledger.rows)[k].action;
                OutcomeFits(OutcomeOf(reply), Dispatchable(old(ledger.session), call, truth, rules, a, env.authority), a, env)
      ensures !InState(old(ledger.Tables()), k, ActionState.Claimed) ==>
                reply.Blocked? && ledger.Tables() == old(ledger.Tables()) && edge.transport == old(edge.transport)
      ensures Tracked(s, steps, truth, seen, ledger.Tables(), Idle,
                      s.sends + multiset(edge.transport[|old(edge.transport)|..]))
    {
      steps := [];
      if k !in ledger.rows || ledger.rows[k].state != ActionState.Claimed {
        FreshRunIsEmpty(s, truth, seen, edge.transport);
        return Blocked("claim is not dispatchable"), steps;
      }
      reply, steps := DispatchClaimed(call, truth, rules, k, env, s, seen);
    }
  }

  lemma FreshRunIsEmpty(s: System, truth: AccountTruth, seen: Exchange, transport: seq<Kind>)
    requires s.position.Idle? && Fresh(s, truth, seen)
    ensures Tracked(s, [], truth, seen, s.ledger, Idle, s.sends + multiset(transport[|transport|..]))
  {
    assert transport[|transport|..] == [];
  }
}
