/**
  The durable ledger of one session: the session row, the action table keyed by action kind
  (UNIQUE(session_id, action_kind)), the kinds in insertion order, and the evaluation table.

  The functions give the effect of each transaction on the tables as a value; the class performs
  the transactions on its fields.  A transaction that the source rolls back changes nothing.
*/
module DurableLedger {
  import opened FunctionalVocabulary

  datatype Ledger = Ledger(
    session: SessionRow,
    rows: map<Kind, ActionRow>,
    order: seq<Kind>,
    evaluations: seq<Evaluation>)

  /** Every claim is listed once, as the action table guarantees. */
  ghost predicate Listed(L: Ledger) {
    && (forall k :: k in L.rows <==> k in L.order)
    && (forall i, j :: 0 <= i < j < |L.order| ==> L.order[i] != L.order[j])
  }

  function CountCleanup(order: seq<Kind>): nat {
    if order == [] then 0 else
      CountCleanup(order[..|order| - 1]) + (if order[|order| - 1].ForCleanup() then 1 else 0)
  }

  function CountCancels(order: seq<Kind>): nat {
    if order == [] then 0 else
      CountCancels(order[..|order| - 1]) + (if order[|order| - 1].Cancel? then 1 else 0)
  }

  /** Some earlier CANCEL already names this target. */
  predicate TargetCanceled(rows: map<Kind, ActionRow>, target: Option<Kind>) {
    exists k :: k in rows && k.Cancel? && rows[k].action.target == target
  }

  /** What claim_action checks before it inserts, the UNIQUE constraint included. */
  predicate ClaimAllowed(L: Ledger, a: SealedAction) {
    && (a.kind.Buy? ==> !L.session.buyClaimed)
    && (a.kind.Sell? ==> !L.session.sellClaimed)
    && (a.kind.ForCleanup() ==> CountCleanup(L.order) < MAX_CLEANUP_ACTIONS)
    && (a.kind.CleanupSell? ==> a.kind.generation == L.session.cleanupSellClaimed + 1)
    && (a.kind.Cancel? ==> a.kind.generation == CountCancels(L.order) + 1 && !TargetCanceled(L.rows, a.target))
    && a.kind !in L.rows
  }

  function NewRow(a: SealedAction, now: real, preBase: Option<real>, preQuote: Option<real>): ActionRow {
    ActionRow(a, Claimed, preBase, preQuote, 0, 0.0, 0.0, 0.0, NoProof, None, now, now)
  }

  function WithClaim(L: Ledger, a: SealedAction, now: real, preBase: Option<real>, preQuote: Option<real>): Ledger {
    L.(rows := L.rows[a.kind := NewRow(a, now, preBase, preQuote)],
       order := L.order + [a.kind],
       session := L.session.(
         buyClaimed := L.session.buyClaimed || a.kind.Buy?,
         sellClaimed := L.session.sellClaimed || a.kind.Sell?,
         cleanupSellClaimed := L.session.cleanupSellClaimed + (if a.kind.CleanupSell? then 1 else 0)))
  }

  predicate InState(L: Ledger, k: Kind, state: ActionState) { k in L.rows && L.rows[k].state == state }

  function WithTransition(L: Ledger, k: Kind, state: ActionState, now: real): Ledger
    requires k in L.rows
  {
    L.(rows := L.rows[k := L.rows[k].(state := state, updated := now)])
  }

  predicate MarkAllowed(L: Ledger, k: Kind) { InState(L, k, Submitting) && L.rows[k].postMarker == None }

  function WithMarker(L: Ledger, k: Kind, now: real): Ledger
    requires k in L.rows
  {
    L.(rows := L.rows[k := L.rows[k].(state := PostMayHaveCrossed, postMarker := Some(now), updated := now)])
  }

  predicate AbsenceAllowed(row: ActionRow, observed: real) {
    row.absenceCount > 0 ==> observed - row.absenceLast >= NONACCEPTANCE_MIN_SPACING
  }

  function AbsenceRow(row: ActionRow, observed: real, proof: AbsenceProof): ActionRow {
    row.(
      state := if row.absenceCount + 1 >= NONACCEPTANCE_MIN_OBSERVATIONS then AmbiguousProvenNotAccepted else row.state,
      absenceCount := row.absenceCount + 1,
      absenceFrom := if row.absenceCount == 0 then row.updated else row.absenceFrom,
      absenceFirst := if row.absenceFirst != 0.0 then row.absenceFirst else observed,
      absenceLast := observed,
      absenceProof := Rolled(row.absenceProof, proof),
      updated := observed)
  }

  function WithAbsence(L: Ledger, k: Kind, observed: real, proof: AbsenceProof): Ledger
    requires k in L.rows
  {
    L.(rows := L.rows[k := AbsenceRow(L.rows[k], observed, proof)])
  }

  predicate EvaluationAllowed(L: Ledger, e: Evaluation) {
    L.session.state.Running? && e.barClose > L.session.lastBarClose
  }

  function WithEvaluation(L: Ledger, e: Evaluation): Ledger {
    L.(evaluations := L.evaluations + [e], session := L.session.(lastBarClose := e.barClose))
  }

  /** set_session(state=..., cleanup_started=True), with no guard on the state it overwrites. */
  function WithSessionState(L: Ledger, state: SessionState, recovery: bool): Ledger {
    L.(session := L.session.(
         state := state,
         cleanupStarted := true,
         recoveryUsed := L.session.recoveryUsed || recovery))
  }

  predicate SealAllowed(L: Ledger) { !L.session.state.Final() && L.session.evidence == None }

  function WithSeal(L: Ledger, state: SessionState, evidence: Evidence): Ledger {
    L.(session := L.session.(state := state, capability := None, evidence := Some(evidence)))
  }

  predicate CommitAllowed(L: Ledger) {
    L.session.state.FinalPrepared? && L.session.capability == None && L.session.evidence.Some?
  }

  predicate AbortAllowed(L: Ledger) { L.rows == map[] && L.session.state.Running? }

  class DurableFunctionalLedger {
    var session: SessionRow
    var rows: map<Kind, ActionRow>
    var order: seq<Kind>
    var evaluations: seq<Evaluation>

    function Tables(): Ledger reads this { Ledger(session, rows, order, evaluations) }

    constructor (row: SessionRow)
      ensures Tables() == Ledger(row, map[], [], [])
    {
      session, rows, order, evaluations := row, map[], [], [];
    }

    method CountCleanupActions() returns (cleanups: nat, cancels: nat)
      ensures cleanups == CountCleanup(order) && cancels == CountCancels(order)
    {
      cleanups, cancels := 0, 0;
      var i := 0;
      while i < |order|
        invariant 0 <= i <= |order|
        invariant cleanups == CountCleanup(order[..i]) && cancels == CountCancels(order[..i])
      {
        assert order[..i + 1][..i] == order[..i];
        if order[i].ForCleanup() { cleanups := cleanups + 1; }
        if order[i].Cancel? { cancels := cancels + 1; }
        i := i + 1;
      }
      assert order[..i] == order;
    }

    method ClaimAction(a: SealedAction, now: real, preBase: Option<real>, preQuote: Option<real>)
      returns (reply: Reply<Kind>)
      modifies this
      ensures reply.Done? <==> ClaimAllowed(old(Tables()), a)
      ensures reply.Done? ==> reply.value == a.kind && Tables() == WithClaim(old(Tables()), a, now, preBase, preQuote)
      ensures reply.Blocked? ==> Tables() == old(Tables())
    {
      var kind := a.kind;
      if kind.Buy? && session.buyClaimed { return Blocked("BUY was already claimed"); }
      if kind.Sell? && session.sellClaimed { return Blocked("SELL was already claimed"); }
      var cleanups, cancels := CountCleanupActions();
      if kind.ForCleanup() && cleanups >= MAX_CLEANUP_ACTIONS { return Blocked("cleanup budget is exhausted"); }
      if kind.CleanupSell? && kind.generation != session.cleanupSellClaimed + 1 {
        return Blocked("cleanup SELL generation order changed");
      }
      if kind.Cancel? {
        if kind.generation != cancels + 1 { return Blocked("cleanup CANCEL generation order changed"); }
        if TargetCanceled(rows, a.target) { return Blocked("a target can be canceled only once"); }
      }
      if kind in rows { return Blocked("already durably claimed"); }
      rows := rows[kind := NewRow(a, now, preBase, preQuote)];
      order := order + [kind];
      if kind.Buy? {
        session := session.(buyClaimed := true);
      } else if kind.Sell? {
        session := session.(sellClaimed := true);
      } else if kind.CleanupSell? {
        session := session.(cleanupSellClaimed := session.cleanupSellClaimed + 1);
      }
      return Done(kind);
    }

    /** Compare-and-set on the state column. */
    method TransitionAction(k: Kind, expected: ActionState, state: ActionState, now: real) returns (moved: bool)
      modifies this`rows
      ensures moved <==> InState(old(Tables()), k, expected)
      ensures moved ==> Tables() == WithTransition(old(Tables()), k, state, now)
      ensures !moved ==> Tables() == old(Tables())
    {
      moved := k in rows && rows[k].state == expected;
      if moved {
        rows := rows[k := rows[k].(state := state, updated := now)];
      }
    }

    /** The one-time compare-and-set immediately before the mutation transport. */
    method MarkPostMayHaveCrossed(k: Kind, now: real) returns (marked: bool)
      modifies this`rows
      ensures marked <==> MarkAllowed(old(Tables()), k)
      ensures marked ==> Tables() == WithMarker(old(Tables()), k, now)
      ensures !marked ==> Tables() == old(Tables())
    {
      marked := k in rows && rows[k].state == Submitting && rows[k].postMarker == None;
      if marked {
        rows := rows[k := rows[k].(state := PostMayHaveCrossed, postMarker := Some(now), updated := now)];
      }
    }

    method RecordAbsence(k: Kind, expected: ActionState, observed: real, proof: AbsenceProof) returns (recorded: bool)
      modifies this`rows
      ensures recorded <==> InState(old(Tables()), k, expected) && AbsenceAllowed(old(rows)[k], observed)
      ensures recorded ==> Tables() == WithAbsence(old(Tables()), k, observed, proof)
      ensures !recorded ==> Tables() == old(Tables())
    {
      if k !in rows || rows[k].state != expected { return false; }
      var row := rows[k];
      if row.absenceCount > 0 && observed - row.absenceLast < NONACCEPTANCE_MIN_SPACING { return false; }
      var first := if row.absenceFirst != 0.0 then row.absenceFirst else observed;
      var count := row.absenceCount + 1;
      var state := if count >= NONACCEPTANCE_MIN_OBSERVATIONS then AmbiguousProvenNotAccepted else expected;
      rows := rows[k := row.(
        state := state, absenceCount := count, absenceFirst := first, absenceLast := observed,
        absenceFrom := if row.absenceCount == 0 then row.updated else row.absenceFrom,
        absenceProof := Rolled(row.absenceProof, proof), updated := observed)];
      return true;
    }

    method RecordEvaluation(e: Evaluation) returns (recorded: bool)
      modifies this`session, this`evaluations
      ensures recorded <==> EvaluationAllowed(old(Tables()), e)
      ensures recorded ==> Tables() == WithEvaluation(old(Tables()), e)
      ensures !recorded ==> Tables() == old(Tables())
    {
      recorded := session.state.Running? && e.barClose > session.lastBarClose;
      if recorded {
        evaluations := evaluations + [e];
        session := session.(lastBarClose := e.barClose);
      }
    }

    method SetSessionState(state: SessionState, recovery: bool)
      modifies this`session
      ensures Tables() == WithSessionState(old(Tables()), state, recovery)
    {
      session := session.(state := state, cleanupStarted := true);
      if recovery {
        session := session.(recoveryUsed := true);
      }
    }

    /** finalize_with_evidence / prepare_final_with_evidence: revoke the capability and seal, once. */
    method SealFinal(prepareOnly: bool, evidence: Evidence) returns (sealed: bool)
      modifies this`session
      ensures var target := if prepareOnly then FinalPrepared else Finalized;
              && (sealed <==> (SealAllowed(old(Tables())) || (old(session).state == target && old(session).evidence == Some(evidence))))
              && (sealed && SealAllowed(old(Tables())) ==> Tables() == WithSeal(old(Tables()), target, evidence))
      ensures !SealAllowed(old(Tables())) ==> Tables() == old(Tables())
    {
      var target := if prepareOnly then FinalPrepared else Finalized;
      if session.state == target {
        return session.evidence == Some(evidence);
      }
      if session.state.Final() || session.evidence.Some? { return false; }
      session := session.(state := target, capability := None, evidence := Some(evidence));
      return true;
    }

    method CommitPreparedFinal() returns (committed: bool)
      modifies this`session
      ensures committed <==> CommitAllowed(old(Tables())) || old(session).state.Finalized?
      ensures CommitAllowed(old(Tables())) ==> Tables() == old(Tables()).(session := old(session).(state := Finalized))
      ensures !CommitAllowed(old(Tables())) ==> Tables() == old(Tables())
    {
      if session.state.FinalPrepared? && session.capability == None && session.evidence.Some? {
        session := session.(state := Finalized);
        return true;
      }
      return session.state.Finalized?;
    }

    method AbortBeforeActivation(evidence: Evidence) returns (aborted: bool)
      modifies this`session
      ensures aborted <==> AbortAllowed(old(Tables()))
      ensures aborted ==> Tables() == WithSeal(old(Tables()), Failed, evidence)
      ensures !aborted ==> Tables() == old(Tables())
    {
      if rows != map[] || !session.state.Running? { return false; }
      session := session.(state := Failed, capability := None, evidence := Some(evidence));
      return true;
    }
  }
}
