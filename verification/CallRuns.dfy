/**
  A service call, and every prefix of it that a crash leaves behind, is a run of the protocol; and
  what the exchange does meanwhile never makes the truth a call works with unusable.
*/
module ServiceRuns {
  import opened FunctionalVocabulary
  import opened DurableLedger
  import opened ExchangeModel
  import opened OrderProtocol

  function ServiceSteps(ms: seq<Move>, truth: AccountTruth, seen: Exchange): seq<Step> {
    if ms == [] then [] else [Service(ms[0], truth, seen)] + ServiceSteps(ms[1..], truth, seen)
  }

  lemma {:induction false} RunAppend(s: System, steps: seq<Step>, step: Step)
    requires Run(s, steps) && StepLegal(RunEnd(s, steps), step)
    ensures Run(s, steps + [step]) && RunEnd(s, steps + [step]) == StepAfter(RunEnd(s, steps), step)
    decreases |steps|
  {
    if steps == [] {
      assert (steps + [step])[1..] == [];
    } else {
      RunAppend(StepAfter(s, steps[0]), steps[1..], step);
      assert (steps + [step])[1..] == steps[1..] + [step];
    }
  }

  lemma ExtendsReflexive(ex: Exchange)
    ensures Extends(ex, ex)
  {}

  /** The truth of a call stays fresh for the rest of the call. */
  lemma FreshAgain(s: System, truth: AccountTruth, seen: Exchange, t: System)
    requires Fresh(s, truth, seen)
    requires t.exchange == s.exchange && t.now == s.now && t.seen == seen
    ensures Fresh(t, truth, seen)
  {
    ExtendsReflexive(seen);
  }

  /** Every service call is a run: its moves taken one by one, with the ledger it ends in. */
  lemma {:induction false} CallIsRun(s: System, ms: seq<Move>, truth: AccountTruth, seen: Exchange, L: Ledger)
    requires s.position.Idle? && Fresh(s, truth, seen) && Moves(s.ledger, ms, truth, s.now, L)
    ensures var steps := ServiceSteps(ms, truth, seen);
            && Run(s, steps)
            && var end := RunEnd(s, steps);
               end.ledger == L && end.exchange == s.exchange && end.position.Idle? && end.sends == s.sends
               && end.now == s.now && Fresh(end, truth, seen)
    decreases |ms|
  {
    if ms != [] {
      var step := Service(ms[0], truth, seen);
      var t := StepAfter(s, step);
      FreshAgain(s, truth, seen, t);
      CallIsRun(t, ms[1..], truth, seen, L);
      assert ServiceSteps(ms, truth, seen)[1..] == ServiceSteps(ms[1..], truth, seen);
    }
  }

  /** A call cut short after any number of its moves was still made of legal moves. */
  lemma {:induction false} CrashedCallIsMoves(L: Ledger, ms: seq<Move>, truth: AccountTruth, now: real, M: Ledger, done: nat)
    requires Moves(L, ms, truth, now, M) && done <= |ms|
    ensures exists mid :: Moves(L, ms[..done], truth, now, mid)
    decreases |ms|
  {
    if done == 0 {
      assert Moves(L, ms[..done], truth, now, L);
    } else {
      var after := MoveAfter(L, ms[0], truth, now);
      CrashedCallIsMoves(after, ms[1..], truth, now, M, done - 1);
      var mid :| Moves(after, ms[1..][..done - 1], truth, now, mid);
      assert ms[..done][1..] == ms[1..][..done - 1];
      assert Moves(L, ms[..done], truth, now, mid);
    }
  }

  /** Fills, cancels, expiries and acceptances in the middle of a call leave its truth usable. */
  lemma FreshSurvivesBroker(s: System, truth: AccountTruth, seen: Exchange, m: BrokerMove)
    requires Fresh(s, truth, seen) && BrokerLegal(s.exchange, m, s.now)
    ensures Fresh(StepAfter(s, Broker(m)), truth, seen)
  {
    BrokerExtends(s.exchange, m, s.now);
    ExtendsTransitive(seen, s.exchange, BrokerAfter(s.exchange, m, s.now));
  }
}
