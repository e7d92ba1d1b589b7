/**
  The owner's lifecycle loop (BinanceSpotFunctionalManagedScheduler.run) against a manager that may
  answer anything.

  A Round is everything one iteration is told: the clock, the stop event, and the manager's answers to
  the calls it may make.  The trace records what the loop saw and did.

  The methods take the loop's steps and are tied to the functions AfterTerminalChecks, AfterBarrier,
  AfterHeartbeat, AfterPoll and RunFrom; what the loop promises is proved about those: IterationKept and
  IterationEnds for one iteration, RunIsDisciplined, LoopEndsByDeadline and FinalizedWasReported for runs.
*/
module ManagedScheduler {
  import opened FunctionalVocabulary

  datatype Phase = Active | Cleanup | FinalReset | FinalizedPhase | FailedPhase | OtherPhase

  /** A status, transition or owner-token document. */
  datatype OwnerEpoch = OwnerEpoch(phase: Phase, session: nat, owner: nat, revision: Option<int>)

  datatype Handle = Handle(session: nat, owner: nat, expires: real, cleanupDeadline: real)

  /** The handle verifier: absent (allowed or not in this deployment), or what it answered. */
  datatype OwnerCheck = NoVerifier(allowed: bool) | VerifierRaised | Verified(epoch: OwnerEpoch)

  datatype TickAnswer = TransientFault | TickFault | Ticked(claim: bool)

  datatype AmbiguousAnswer = NotWired | NothingDue | ProofRecorded | ProofRaised

  datatype Round = Round(
    now: real,
    status: OwnerEpoch,
    stopSet: bool,
    resumeCallable: bool,
    resumeRaises: bool,
    phaseAfterResume: Phase,
    transition: Option<OwnerEpoch>,     // begin_cleanup's answer; None when it raised
    cleanupRead: OwnerEpoch,            // the status read by the verification
    ownerCheck: OwnerCheck,
    heartbeatRaises: bool,
    phaseAfterHeartbeat: Phase,
    ambiguous: AmbiguousAnswer,
    tick: TickAnswer,
    phaseAfterTick: Phase,
    finalizeRaises: bool)

  datatype Event =
    | StopSeen
    | FaultSeen
    | CleanupRead
    | HeartbeatCall(now: real, phase: Phase)
    | ProofCall(phase: Phase)
    | TickCall(now: real)
    | FinalizeCall(phase: Phase)
    | ResumeCall
    | DeadlineCall

  datatype Ending = EndedFinalized | EndedFailed | EndedForReconciliation

  /** `nextHeartbeat` is None for infinity. */
  datatype Loop = Loop(nextHeartbeat: Option<real>, nextMarketPoll: real, latched: bool, barrier: bool, trace: seq<Event>)
  {
    function Saw(e: Event): Loop { this.(trace := trace + [e]) }
  }

  // ---- Discipline of a trace ---------------------------------------------------------------------------

  predicate Guarded(trace: seq<Event>) { StopSeen in trace || FaultSeen in trace }

  /** What may come next: this is the STOP barrier. */
  predicate Allowed(e: Event, before: seq<Event>, expires: real) {
    match e
    case HeartbeatCall(now, phase) => phase.Active? && now < expires && !Guarded(before) && CleanupRead !in before
    case ProofCall(phase) => phase.Cleanup? && (Guarded(before) ==> CleanupRead in before)
    case TickCall(_) => Guarded(before) ==> CleanupRead in before
    case FinalizeCall(phase) => phase.Cleanup? && (Guarded(before) ==> CleanupRead in before)
    case _ => true
  }

  predicate Disciplined(trace: seq<Event>, expires: real) {
    trace == [] ||
    var n := |trace| - 1;
    Disciplined(trace[..n], expires) && Allowed(trace[n], trace[..n], expires)
  }

  lemma DisciplinedAppend(trace: seq<Event>, e: Event, expires: real)
    requires Disciplined(trace, expires) && Allowed(e, trace, expires)
    ensures Disciplined(trace + [e], expires)
  {
    assert (trace + [e])[..|trace|] == trace;
  }

  lemma {:induction false} AllowedAt(trace: seq<Event>, j: nat, expires: real)
    requires Disciplined(trace, expires) && j < |trace|
    ensures Allowed(trace[j], trace[..j], expires)
    decreases |trace|
  {
    var n := |trace| - 1;
    if j < n {
      AllowedAt(trace[..n], j, expires);
      assert trace[..n][..j] == trace[..j];
    }
  }

  predicate Acts(e: Event) { e.HeartbeatCall? || e.ProofCall? || e.TickCall? || e.FinalizeCall? }

  /**
    Between a stop or fault and the next action of any kind lies a read of the durable CLEANUP phase;
    the only way it can lie earlier is that CLEANUP had already been read when the stop or fault came.
  */
  lemma StopBarrier(trace: seq<Event>, i: nat, j: nat, expires: real)
    requires Disciplined(trace, expires) && i < j < |trace|
    requires (trace[i].StopSeen? || trace[i].FaultSeen?) && Acts(trace[j])
    ensures exists k :: 0 <= k < j && trace[k] == CleanupRead && (i < k || CleanupRead in trace[..i])
    ensures !trace[j].HeartbeatCall?
  {
    AllowedAt(trace, j, expires);
    assert trace[..j][i] == trace[i];
    assert Guarded(trace[..j]);
    var k :| 0 <= k < j && trace[..j][k] == CleanupRead;
    if k < i { assert trace[..i][k] == CleanupRead; }
  }

  /** Heartbeats happen in ACTIVE before expiry only, and never again after CLEANUP was read. */
  lemma HeartbeatsOnlyWhileActive(trace: seq<Event>, j: nat, expires: real)
    requires Disciplined(trace, expires) && j < |trace| && trace[j].HeartbeatCall?
    ensures trace[j].phase.Active? && trace[j].now < expires && CleanupRead !in trace[..j]
  {
    AllowedAt(trace, j, expires);
  }

  // ---- One iteration -------------------------------------------------------------------------------------

  /** The scheduler's two intervals. */
  datatype Pace = Pace(heartbeat: real, poll: real)

  /** Where an iteration stands: ended, given up for this time, or going on in `phase`. */
  datatype Turn = Turn(loop: Loop, ending: Option<Ending>, goesOn: bool, phase: Phase)

  /** The exact durable owner epoch, in CLEANUP, and newer than before when that is known. */
  predicate VerifiedCleanup(round: Round, handle: Handle, before: Option<int>, transition: Option<OwnerEpoch>) {
    var read := round.cleanupRead;
    var revision := if read.revision.Some? then read.revision.value else -1;
    && read.phase.Cleanup? && read.session == handle.session && read.owner == handle.owner && revision >= 1
    && (before.Some? ==> revision > before.value)
    && (transition.Some? ==> transition.value == OwnerEpoch(Cleanup, read.session, read.owner, Some(revision)))
    && match round.ownerCheck
       case NoVerifier(allowed) => allowed
       case VerifierRaised => false
       case Verified(epoch) => epoch == OwnerEpoch(Cleanup, read.session, read.owner, Some(revision))
  }

  /** Whether the barrier of this iteration is passed: CLEANUP read, or begun and then read. */
  predicate BarrierPassed(round: Round, handle: Handle) {
    if round.status.phase.Cleanup? then VerifiedCleanup(round, handle, None, None)
    else VerifiedCleanup(round, handle, round.status.revision, round.transition)
  }

  /** This document says: CLEANUP, this handle's session and owner, at this revision. */
  predicate IsCleanupOf(epoch: OwnerEpoch, handle: Handle, revision: int) {
    epoch == OwnerEpoch(Cleanup, handle.session, handle.owner, Some(revision))
  }

  /**
    What passing the barrier takes: CLEANUP read for exactly this handle at a positive revision, the
    owner verifier saying the same or lawfully absent, and, when CLEANUP was only just begun, a revision
    newer than the status had and a transition document, if there is one, saying the same.
  */
  lemma BarrierExactly(round: Round, handle: Handle)
    ensures BarrierPassed(round, handle) <==>
              exists revision: int :: revision >= 1 && IsCleanupOf(round.cleanupRead, handle, revision)
                && (round.ownerCheck == NoVerifier(true)
                    || (round.ownerCheck.Verified? && IsCleanupOf(round.ownerCheck.epoch, handle, revision)))
                && (round.status.phase == Cleanup
                    || (&& (round.status.revision == None || round.status.revision.value < revision)
                        && (round.transition == None || IsCleanupOf(round.transition.value, handle, revision))))
  {
    if BarrierPassed(round, handle) {
      assert IsCleanupOf(round.cleanupRead, handle, round.cleanupRead.revision.value);
    }
  }

  /** Terminal phases, FINAL_RESET and the cleanup deadline. */
  function AfterTerminalChecks(s: Loop, round: Round, handle: Handle): Turn {
    var phase := round.status.phase;
    if phase.FinalizedPhase? then Turn(s, Some(EndedFinalized), false, phase)
    else if phase.FailedPhase? then Turn(s, Some(EndedFailed), false, phase)
    else if phase.FinalReset? then
      if !round.resumeCallable then Turn(s, Some(EndedForReconciliation), false, phase)
      else if round.resumeRaises || !round.phaseAfterResume.FinalizedPhase? then Turn(s.Saw(ResumeCall), None, false, phase)
      else Turn(s.Saw(ResumeCall), Some(EndedFinalized), false, phase)
    else if round.now >= handle.cleanupDeadline then Turn(s.Saw(DeadlineCall), Some(EndedForReconciliation), false, phase)
    else Turn(s, None, true, phase)
  }

  function Earlier(a: real, b: real): real { if a < b then a else b }

  function Latched(s: Loop, round: Round, barrier: bool): Loop {
    s.Saw(CleanupRead).(
      latched := true, barrier := barrier, nextHeartbeat := None, nextMarketPoll := Earlier(s.nextMarketPoll, round.now))
  }

  /** The STOP and fault barrier. */
  function AfterBarrier(s: Loop, round: Round, handle: Handle): Turn {
    var t := if round.stopSet then s.Saw(StopSeen) else s;
    if (round.stopSet || s.barrier) && !s.latched then
      if BarrierPassed(round, handle) then Turn(Latched(t, round, false), None, true, Cleanup)
      else Turn(t.(nextHeartbeat := None), None, false, round.status.phase)
    else Turn(t, None, true, round.status.phase)
  }

  predicate HeartbeatDue(s: Loop, round: Round, handle: Handle, phase: Phase) {
    phase.Active? && round.now < handle.expires && s.nextHeartbeat.Some? && round.now >= s.nextHeartbeat.value
  }

  /** The owner heartbeat, when one is due. */
  function AfterHeartbeat(s: Loop, round: Round, handle: Handle, phase: Phase, pace: Pace): Turn {
    if !HeartbeatDue(s, round, handle, phase) then Turn(s, None, true, phase)
    else
      var t := s.Saw(HeartbeatCall(round.now, phase));
      if !round.heartbeatRaises then Turn(t.(nextHeartbeat := Some(round.now + pace.heartbeat)), None, true, phase)
      else if !round.phaseAfterHeartbeat.Cleanup? then Turn(t, Some(EndedForReconciliation), false, phase)
      else Turn(Latched(t, round, t.barrier), None, true, Cleanup)
  }

  function Ticking(s: Loop, round: Round, pace: Pace): Loop { s.Saw(TickCall(round.now)).(nextMarketPoll := round.now + pace.poll) }

  /** The tick, and after a claimless cleanup tick the attempt to finalize. */
  function AfterTick(s: Loop, round: Round, pace: Pace): (Loop, Option<Ending>) {
    var t := Ticking(s, round, pace);
    match round.tick
    case TransientFault => (t, None)
    case TickFault => (t.Saw(FaultSeen).(barrier := true, nextHeartbeat := None), None)
    case Ticked(claim) =>
      if round.phaseAfterTick.Cleanup? && !claim then
        (t.Saw(FinalizeCall(round.phaseAfterTick)), if round.finalizeRaises then None else Some(EndedFinalized))
      else (t, None)
  }

  predicate ProofTried(round: Round, phase: Phase) {
    phase.Cleanup? && (round.ambiguous.ProofRecorded? || round.ambiguous.ProofRaised?)
  }

  /** One due poll: in CLEANUP first the proof of an ambiguous claim, then the tick. */
  function AfterPoll(s: Loop, round: Round, phase: Phase, pace: Pace): (Loop, Option<Ending>) {
    var t := if ProofTried(round, phase) then s.Saw(ProofCall(phase)) else s;
    if ProofTried(round, phase) && round.ambiguous.ProofRaised? then (t, Some(EndedForReconciliation))
    else AfterTick(t, round, pace)
  }

  predicate Due(s: Loop, round: Round, handle: Handle) { round.now >= s.nextMarketPoll || round.now >= handle.expires }

  /** Past expiry a poll is due at once. */
  function Hastened(s: Loop, round: Round, handle: Handle): Loop {
    if round.now >= handle.expires then s.(nextMarketPoll := Earlier(s.nextMarketPoll, round.now)) else s
  }

  function AfterIteration(s: Loop, round: Round, handle: Handle, pace: Pace): (Loop, Option<Ending>) {
    var checks := AfterTerminalChecks(s, round, handle);
    if !checks.goesOn then (checks.loop, checks.ending)
    else
      var barrier := AfterBarrier(checks.loop, round, handle);
      if !barrier.goesOn then (barrier.loop, None) else PastBarrier(barrier.loop, round, handle, barrier.phase, pace)
  }

  /** The heartbeat and the poll behind the barrier. */
  function PastBarrier(s: Loop, round: Round, handle: Handle, phase: Phase, pace: Pace): (Loop, Option<Ending>) {
    var beat := AfterHeartbeat(Hastened(s, round, handle), round, handle, phase, pace);
    if !beat.goesOn then (beat.loop, beat.ending)
    else if round.now >= beat.loop.nextMarketPoll then AfterPoll(beat.loop, round, beat.phase, pace)
    else (beat.loop, None)
  }

  // ---- The loop ------------------------------------------------------------------------------------------

  datatype Outcome = Outcome(ending: Option<Ending>, trace: seq<Event>, iterations: nat)

  function RunFrom(s: Loop, rounds: seq<Round>, handle: Handle, pace: Pace): Outcome
    decreases |rounds|
  {
    if rounds == [] then Outcome(None, s.trace, 0)
    else
      var turn := AfterIteration(s, rounds[0], handle, pace);
      if turn.1.Some? then Outcome(turn.1, turn.0.trace, 1)
      else
        var rest := RunFrom(turn.0, rounds[1..], handle, pace);
        rest.(iterations := rest.iterations + 1)
  }

  function Start(started: real): Loop { Loop(Some(started), started, false, false, []) }

  method TerminalChecks(s: Loop, round: Round, handle: Handle) returns (turn: Turn)
    ensures turn == AfterTerminalChecks(s, round, handle)
  {
    var phase := round.status.phase;
    if phase.FinalizedPhase? { return Turn(s, Some(EndedFinalized), false, phase); }
    if phase.FailedPhase? { return Turn(s, Some(EndedFailed), false, phase); }
    if phase.FinalReset? {
      if !round.resumeCallable { return Turn(s, Some(EndedForReconciliation), false, phase); }
      var t := s.Saw(ResumeCall);
      if round.resumeRaises { return Turn(t, None, false, phase); }
      if round.phaseAfterResume != FinalizedPhase { return Turn(t, None, false, phase); }
      return Turn(t, Some(EndedFinalized), false, phase);
    }
    if round.now >= handle.cleanupDeadline { return Turn(s.Saw(DeadlineCall), Some(EndedForReconciliation), false, phase); }
    return Turn(s, None, true, phase);
  }

  method PassBarrier(s: Loop, round: Round, handle: Handle) returns (turn: Turn)
    ensures turn == AfterBarrier(s, round, handle)
  {
    var t := s;
    if round.stopSet { t := t.Saw(StopSeen); }
    if round.stopSet || s.barrier {
      if !s.latched {
        t := t.(nextHeartbeat := None);
        if !BarrierPassed(round, handle) { return Turn(t, None, false, round.status.phase); }
        t := t.Saw(CleanupRead);
        t := t.(latched := true, barrier := false, nextMarketPoll := Earlier(t.nextMarketPoll, round.now));
        return Turn(t, None, true, Cleanup);
      }
    }
    return Turn(t, None, true, round.status.phase);
  }

  method Heartbeat(s: Loop, round: Round, handle: Handle, phase: Phase, pace: Pace) returns (turn: Turn)
    ensures turn == AfterHeartbeat(s, round, handle, phase, pace)
  {
    if !HeartbeatDue(s, round, handle, phase) { return Turn(s, None, true, phase); }
    var t := s.Saw(HeartbeatCall(round.now, phase));
    if round.heartbeatRaises {
      if round.phaseAfterHeartbeat != Cleanup { return Turn(t, Some(EndedForReconciliation), false, phase); }
      t := t.Saw(CleanupRead);
      t := t.(latched := true, nextHeartbeat := None, nextMarketPoll := Earlier(t.nextMarketPoll, round.now));
      return Turn(t, None, true, Cleanup);
    }
    return Turn(t.(nextHeartbeat := Some(round.now + pace.heartbeat)), None, true, phase);
  }

  method Poll(s: Loop, round: Round, phase: Phase, pace: Pace) returns (t: Loop, ending: Option<Ending>)
    ensures (t, ending) == AfterPoll(s, round, phase, pace)
  {
    t, ending := s, None;
    if phase.Cleanup? && (round.ambiguous.ProofRecorded? || round.ambiguous.ProofRaised?) {
      t := t.Saw(ProofCall(phase));
      if round.ambiguous.ProofRaised? { return t, Some(EndedForReconciliation); }
    }
    t := t.Saw(TickCall(round.now));
    t := t.(nextMarketPoll := round.now + pace.poll);
    match round.tick
    case TransientFault => return;
    case TickFault => t := t.Saw(FaultSeen).(barrier := true, nextHeartbeat := None);
    case Ticked(claim) =>
      if round.phaseAfterTick.Cleanup? && !claim {
        t := t.Saw(FinalizeCall(round.phaseAfterTick));
        if !round.finalizeRaises { return t, Some(EndedFinalized); }
      }
  }

  /** The loop, for as many iterations as `rounds` has. */
  method Run(rounds: seq<Round>, handle: Handle, started: real, pace: Pace) returns (outcome: Outcome)
    ensures outcome == RunFrom(Start(started), rounds, handle, pace)
  {
    var s := Start(started);
    var i := 0;
    while i < |rounds|
      invariant 0 <= i <= |rounds|
      invariant var rest := RunFrom(s, rounds[i..], handle, pace);
                RunFrom(Start(started), rounds, handle, pace) == rest.(iterations := rest.iterations + i)
    {
      var round := rounds[i];
      assert rounds[i..][0] == round && rounds[i..][1..] == rounds[i + 1..];
      i := i + 1;
      var turn := TerminalChecks(s, round, handle);
      if turn.ending.Some? { return Outcome(turn.ending, turn.loop.trace, i); }
      if !turn.goesOn { s := turn.loop; continue; }
      turn := PassBarrier(turn.loop, round, handle);
      if !turn.goesOn { s := turn.loop; continue; }
      turn := Heartbeat(Hastened(turn.loop, round, handle), round, handle, turn.phase, pace);
      if turn.ending.Some? { return Outcome(turn.ending, turn.loop.trace, i); }
      s := turn.loop;
      if round.now >= s.nextMarketPoll {
        var ending;
        s, ending := Poll(s, round, turn.phase, pace);
        if ending.Some? { return Outcome(ending, s.trace, i); }
      }
    }
    return Outcome(None, s.trace, i);
  }

  // ---- Discipline is kept ----------------------------------------------------------------------------------

  /** What holds between two iterations. */
  predicate Kept(s: Loop, expires: real) {
    && Disciplined(s.trace, expires)
    && (s.latched <==> CleanupRead in s.trace)
    && (s.latched || Guarded(s.trace) ==> s.nextHeartbeat == None)
    && (FaultSeen in s.trace && !s.latched ==> s.barrier)
  }

  /** Past the barrier a stop or fault has been answered by a CLEANUP read. */
  predicate Cleared(s: Loop, expires: real) { Kept(s, expires) && (Guarded(s.trace) ==> s.latched) }

  /** Doing something allowed, as long as it is neither a stop, a fault nor a CLEANUP read. */
  lemma SawKept(s: Loop, e: Event, expires: real)
    requires Kept(s, expires) && Allowed(e, s.trace, expires)
    requires !e.StopSeen? && !e.FaultSeen? && !e.CleanupRead?
    ensures Kept(s.Saw(e), expires)
    ensures Guarded(s.Saw(e).trace) <==> Guarded(s.trace)
    ensures StopSeen in s.Saw(e).trace <==> StopSeen in s.trace
  {
    DisciplinedAppend(s.trace, e, expires);
  }

  lemma LatchedKept(s: Loop, round: Round, barrier: bool, expires: real)
    requires Disciplined(s.trace, expires)
    ensures Cleared(Latched(s, round, barrier), expires)
    ensures StopSeen in Latched(s, round, barrier).trace <==> StopSeen in s.trace
  {
    DisciplinedAppend(s.trace, CleanupRead, expires);
  }

  lemma TerminalChecksKept(s: Loop, round: Round, handle: Handle)
    requires Kept(s, handle.expires)
    ensures var turn := AfterTerminalChecks(s, round, handle);
            && Kept(turn.loop, handle.expires)
            && (StopSeen in turn.loop.trace <==> StopSeen in s.trace)
  {
    var turn := AfterTerminalChecks(s, round, handle);
    if turn.loop == s.Saw(ResumeCall) {
      SawKept(s, ResumeCall, handle.expires);
    } else if turn.loop == s.Saw(DeadlineCall) {
      SawKept(s, DeadlineCall, handle.expires);
    } else {
      TerminalTurn(s, round, handle);
    }
  }

  /** The terminal checks see at most one event, and none when the iteration goes on. */
  lemma TerminalTurn(s: Loop, round: Round, handle: Handle)
    ensures var turn := AfterTerminalChecks(s, round, handle);
            && (turn.loop == s || turn.loop == s.Saw(ResumeCall) || turn.loop == s.Saw(DeadlineCall))
            && (turn.goesOn ==> turn.loop == s)
  {}

  lemma StopKept(s: Loop, round: Round, expires: real)
    requires Kept(s, expires) && (StopSeen in s.trace ==> round.stopSet)
    ensures var t := if round.stopSet then s.Saw(StopSeen) else s;
            && Disciplined(t.trace, expires)
            && (StopSeen in t.trace <==> round.stopSet) && (CleanupRead in t.trace <==> s.latched)
            && (FaultSeen in t.trace <==> FaultSeen in s.trace)
  {
    DisciplinedAppend(s.trace, StopSeen, expires);
  }

  lemma BarrierKept(s: Loop, round: Round, handle: Handle)
    requires Kept(s, handle.expires) && (StopSeen in s.trace ==> round.stopSet)
    ensures var turn := AfterBarrier(s, round, handle);
            && (if turn.goesOn then Cleared(turn.loop, handle.expires) else Kept(turn.loop, handle.expires))
            && (StopSeen in turn.loop.trace <==> round.stopSet)
  {
    StopKept(s, round, handle.expires);
    var t := if round.stopSet then s.Saw(StopSeen) else s;
    if (round.stopSet || s.barrier) && !s.latched {
      LatchedKept(t, round, false, handle.expires);
    }
  }

  lemma HeartbeatKept(s: Loop, round: Round, handle: Handle, phase: Phase, pace: Pace)
    requires Cleared(s, handle.expires)
    ensures var turn := AfterHeartbeat(s, round, handle, phase, pace);
            && Cleared(turn.loop, handle.expires)
            && (StopSeen in turn.loop.trace <==> StopSeen in s.trace)
  {
    if HeartbeatDue(s, round, handle, phase) {
      var e := HeartbeatCall(round.now, phase);
      SawKept(s, e, handle.expires);
      LatchedKept(s.Saw(e), round, s.barrier, handle.expires);
    }
  }

  lemma FaultKept(s: Loop, expires: real)
    requires Kept(s, expires)
    ensures Kept(s.Saw(FaultSeen).(barrier := true, nextHeartbeat := None), expires)
    ensures StopSeen in s.Saw(FaultSeen).trace <==> StopSeen in s.trace
  {
    DisciplinedAppend(s.trace, FaultSeen, expires);
  }

  lemma TickKept(s: Loop, round: Round, expires: real, pace: Pace)
    requires Cleared(s, expires)
    ensures var t := AfterTick(s, round, pace).0;
            Kept(t, expires) && (StopSeen in t.trace <==> StopSeen in s.trace)
  {
    TickingKept(s, round, expires, pace);
    var t := Ticking(s, round, pace);
    match round.tick
    case TransientFault =>
    case TickFault => FaultKept(t, expires);
    case Ticked(_) => if round.phaseAfterTick.Cleanup? { FinalizingKept(t, round.phaseAfterTick, expires); }
  }

  lemma TickingKept(s: Loop, round: Round, expires: real, pace: Pace)
    requires Cleared(s, expires)
    ensures Cleared(Ticking(s, round, pace), expires)
    ensures StopSeen in Ticking(s, round, pace).trace <==> StopSeen in s.trace
  {
    SawKept(s, TickCall(round.now), expires);
  }

  lemma FinalizingKept(s: Loop, phase: Phase, expires: real)
    requires Cleared(s, expires) && phase.Cleanup?
    ensures Kept(s.Saw(FinalizeCall(phase)), expires)
    ensures StopSeen in s.Saw(FinalizeCall(phase)).trace <==> StopSeen in s.trace
  {
    SawKept(s, FinalizeCall(phase), expires);
  }

  lemma PollKept(s: Loop, round: Round, phase: Phase, expires: real, pace: Pace)
    requires Cleared(s, expires)
    ensures var t := AfterPoll(s, round, phase, pace).0;
            Kept(t, expires) && (StopSeen in t.trace <==> StopSeen in s.trace)
  {
    if ProofTried(round, phase) {
      SawKept(s, ProofCall(phase), expires);
      TickKept(s.Saw(ProofCall(phase)), round, expires, pace);
    } else {
      TickKept(s, round, expires, pace);
    }
  }

  lemma IterationKept(s: Loop, round: Round, handle: Handle, pace: Pace)
    requires Kept(s, handle.expires) && (StopSeen in s.trace ==> round.stopSet)
    ensures var t := AfterIteration(s, round, handle, pace).0;
            Kept(t, handle.expires) && (StopSeen in t.trace ==> round.stopSet)
  {
    TerminalChecksKept(s, round, handle);
    TerminalTurn(s, round, handle);
    var checks := AfterTerminalChecks(s, round, handle);
    if checks.goesOn {
      BarrierKept(s, round, handle);
      var barrier := AfterBarrier(s, round, handle);
      if barrier.goesOn { PastBarrierKept(barrier.loop, round, handle, barrier.phase, pace); }
    }
  }

  lemma PastBarrierKept(s: Loop, round: Round, handle: Handle, phase: Phase, pace: Pace)
    requires Cleared(s, handle.expires) && (StopSeen in s.trace <==> round.stopSet)
    ensures var t := PastBarrier(s, round, handle, phase, pace).0;
            Kept(t, handle.expires) && (StopSeen in t.trace <==> round.stopSet)
  {
    var hastened := Hastened(s, round, handle);
    HeartbeatKept(hastened, round, handle, phase, pace);
    var beat := AfterHeartbeat(hastened, round, handle, phase, pace);
    PollKept(beat.loop, round, beat.phase, handle.expires, pace);
  }

  /** A stop event, once set, stays set. */
  predicate StopStaysSet(rounds: seq<Round>) {
    forall i, j :: 0 <= i < j < |rounds| && rounds[i].stopSet ==> rounds[j].stopSet
  }

  lemma {:induction false} RunKept(s: Loop, rounds: seq<Round>, handle: Handle, pace: Pace)
    requires Kept(s, handle.expires) && StopStaysSet(rounds)
    requires StopSeen in s.trace && rounds != [] ==> rounds[0].stopSet
    ensures Disciplined(RunFrom(s, rounds, handle, pace).trace, handle.expires)
    decreases |rounds|
  {
    if rounds != [] {
      IterationKept(s, rounds[0], handle, pace);
      RunKept(AfterIteration(s, rounds[0], handle, pace).0, rounds[1..], handle, pace);
    }
  }

  /** Whatever the manager answers, the trace of the loop is disciplined. */
  lemma RunIsDisciplined(rounds: seq<Round>, handle: Handle, started: real, pace: Pace)
    requires StopStaysSet(rounds)
    ensures Disciplined(RunFrom(Start(started), rounds, handle, pace).trace, handle.expires)
  {
    RunKept(Start(started), rounds, handle, pace);
  }

  // ---- How the loop ends -------------------------------------------------------------------------------------

  /** The manager reported FINALIZED: as its phase, after resuming, or by finalizing. */
  predicate ReportedFinalized(round: Round) {
    || round.status.phase.FinalizedPhase?
    || (round.status.phase.FinalReset? && !round.resumeRaises && round.phaseAfterResume.FinalizedPhase?)
    || (round.phaseAfterTick.Cleanup? && !round.finalizeRaises)
  }

  /** How one iteration can end the loop, and when it must. */
  lemma IterationEnds(s: Loop, round: Round, handle: Handle, pace: Pace)
    ensures var ending := AfterIteration(s, round, handle, pace).1;
            && (ending == Some(EndedFinalized) ==> ReportedFinalized(round))
            && (ending == None ==> round.now < handle.cleanupDeadline || round.status.phase.FinalReset?)
  {}

  lemma {:induction false} RunEnds(s: Loop, rounds: seq<Round>, handle: Handle, pace: Pace)
    ensures var outcome := RunFrom(s, rounds, handle, pace);
            && outcome.iterations <= |rounds|
            && (outcome.ending == None ==> outcome.iterations == |rounds|)
            && (outcome.ending == Some(EndedFinalized) ==>
                  outcome.iterations > 0 && ReportedFinalized(rounds[outcome.iterations - 1]))
            && (forall i :: 0 <= i < |rounds| && (outcome.ending == None || i + 1 < outcome.iterations) ==>
                  rounds[i].now < handle.cleanupDeadline || rounds[i].status.phase.FinalReset?)
    decreases |rounds|
  {
    if rounds != [] {
      IterationEnds(s, rounds[0], handle, pace);
      var turn := AfterIteration(s, rounds[0], handle, pace);
      if turn.1 == None {
        RunEnds(turn.0, rounds[1..], handle, pace);
        assert forall i :: 1 <= i < |rounds| ==> rounds[i] == rounds[1..][i - 1];
      }
    }
  }

  lemma MoreTicksLater(n: real, i: real, tick: real)
    requires n <= i && tick > 0.0
    ensures n * tick <= i * tick
  {}

  lemma PastTheDeadline(rounds: seq<Round>, started: real, tick: real, deadline: real, n: nat)
    requires tick > 0.0 && started + n as real * tick >= deadline
    requires forall i :: 0 <= i < |rounds| ==> rounds[i].now >= started + i as real * tick
    ensures forall i :: n <= i < |rounds| ==> rounds[i].now >= deadline
  {
    forall i | n <= i < |rounds| ensures rounds[i].now >= deadline {
      MoreTicksLater(n as real, i as real, tick);
    }
  }

  lemma EndsOncePast(s: Loop, rounds: seq<Round>, handle: Handle, pace: Pace, i: nat)
    requires i < |rounds| && rounds[i].now >= handle.cleanupDeadline && !rounds[i].status.phase.FinalReset?
    ensures RunFrom(s, rounds, handle, pace).ending.Some? && RunFrom(s, rounds, handle, pace).iterations <= i + 1
  {
    RunEnds(s, rounds, handle, pace);
  }

  /**
    With a clock that advances at least `tick` an iteration, the loop ends by its cleanup deadline
    unless it sits in FINAL_RESET: from the iteration the deadline is reached at, the first status
    that is not FINAL_RESET ends it.
  */
  lemma LoopEndsByDeadline(rounds: seq<Round>, handle: Handle, started: real, pace: Pace, tick: real, n: nat)
    requires tick > 0.0 && started + n as real * tick >= handle.cleanupDeadline
    requires forall i :: 0 <= i < |rounds| ==> rounds[i].now >= started + i as real * tick
    ensures var outcome := RunFrom(Start(started), rounds, handle, pace);
            forall i :: n <= i < |rounds| && !rounds[i].status.phase.FinalReset? ==>
              outcome.ending.Some? && outcome.iterations <= i + 1
  {
    PastTheDeadline(rounds, started, tick, handle.cleanupDeadline, n);
    forall i | n <= i < |rounds| && !rounds[i].status.phase.FinalReset?
      ensures RunFrom(Start(started), rounds, handle, pace).ending.Some? && RunFrom(Start(started), rounds, handle, pace).iterations <= i + 1
    {
      EndsOncePast(Start(started), rounds, handle, pace, i);
    }
  }

  /** An end that says FINALIZED was reported by the manager in the last iteration. */
  lemma FinalizedWasReported(rounds: seq<Round>, handle: Handle, started: real, pace: Pace)
    requires RunFrom(Start(started), rounds, handle, pace).ending == Some(EndedFinalized)
    ensures var n := RunFrom(Start(started), rounds, handle, pace).iterations;
            0 < n <= |rounds| && ReportedFinalized(rounds[n - 1])
  {
    RunEnds(Start(started), rounds, handle, pace);
  }

  // ---- The latch is one-way ------------------------------------------------------------------------------------

  function TickTrace(round: Round): seq<Event> {
    match round.tick
    case TransientFault => [TickCall(round.now)]
    case TickFault => [TickCall(round.now), FaultSeen]
    case Ticked(claim) =>
      if round.phaseAfterTick.Cleanup? && !claim then [TickCall(round.now), FinalizeCall(round.phaseAfterTick)]
      else [TickCall(round.now)]
  }

  /** What a due poll does, given the phase it starts in. */
  function PollTrace(round: Round, phase: Phase): seq<Event> {
    if ProofTried(round, phase) then [ProofCall(phase)] + (if round.ambiguous.ProofRaised? then [] else TickTrace(round))
    else TickTrace(round)
  }

  function StopTrace(round: Round): seq<Event> { if round.stopSet then [StopSeen] else [] }

  function DueTrace(s: Loop, round: Round, handle: Handle): seq<Event> {
    if Due(s, round, handle) then PollTrace(round, round.status.phase) else []
  }

  predicate Ongoing(round: Round, handle: Handle) {
    && !round.status.phase.FinalizedPhase? && !round.status.phase.FailedPhase? && !round.status.phase.FinalReset?
    && round.now < handle.cleanupDeadline
  }

  lemma TickDoes(s: Loop, round: Round, pace: Pace)
    ensures AfterTick(s, round, pace).0.trace == s.trace + TickTrace(round)
  {}

  lemma PollDoes(s: Loop, round: Round, phase: Phase, pace: Pace)
    ensures AfterPoll(s, round, phase, pace).0.trace == s.trace + PollTrace(round, phase)
  {
    TickDoes(s, round, pace);
    TickDoes(s.Saw(ProofCall(phase)), round, pace);
    assert s.trace + [ProofCall(phase)] + TickTrace(round) == s.trace + ([ProofCall(phase)] + TickTrace(round));
  }

  lemma Regroup(a: seq<Event>, b: seq<Event>, c: seq<Event>)
    ensures a + b + c == a + (b + c)
    ensures (a + (b + c))[|a|..] == b + c
  {}

  /** What an iteration does once CLEANUP has been read: no barrier, no heartbeat, a poll when one is due. */
  function LatchedTrace(s: Loop, round: Round, handle: Handle): seq<Event> {
    StopTrace(round) + DueTrace(s, round, handle)
  }

  lemma LatchedIteration(s: Loop, round: Round, handle: Handle, pace: Pace)
    requires Kept(s, handle.expires) && s.latched && Ongoing(round, handle)
    ensures AfterIteration(s, round, handle, pace).0.trace == s.trace + LatchedTrace(s, round, handle)
  {
    var barrier := AfterBarrier(s, round, handle);
    assert barrier.loop == s.(trace := s.trace + StopTrace(round)) && barrier.goesOn && barrier.phase == round.status.phase;
    var hastened := Hastened(barrier.loop, round, handle);
    assert AfterHeartbeat(hastened, round, handle, barrier.phase, pace).loop == hastened;
    PollDoes(hastened, round, round.status.phase, pace);
    Regroup(s.trace, StopTrace(round), DueTrace(s, round, handle));
  }

  lemma LatchedActs(s: Loop, round: Round, handle: Handle)
    ensures CleanupRead !in LatchedTrace(s, round, handle)
    ensures (exists e :: e in LatchedTrace(s, round, handle) && Acts(e)) <==> Due(s, round, handle)
  {
    if Due(s, round, handle) {
      var first := PollTrace(round, round.status.phase)[0];
      assert Acts(first) && first in LatchedTrace(s, round, handle);
    }
  }

  /**
    The latch is one-way: once CLEANUP has been read, a later stop or tick fault is no barrier any
    more.  Whatever phase the manager then reports, a due poll proves or ticks in the very next
    iteration, and nothing reads CLEANUP first.
  */
  lemma LatchedFaultIsNoBarrier(s: Loop, round: Round, handle: Handle, pace: Pace)
    requires Kept(s, handle.expires) && s.latched && Ongoing(round, handle)
    ensures var trace := AfterIteration(s, round, handle, pace).0.trace;
            && s.trace <= trace
            && CleanupRead !in trace[|s.trace|..]
            && ((exists e :: e in trace[|s.trace|..] && Acts(e)) <==> Due(s, round, handle))
  {
    LatchedIteration(s, round, handle, pace);
    LatchedActs(s, round, handle);
    Regroup(s.trace, StopTrace(round), DueTrace(s, round, handle));
  }

  // ---- When heartbeats and ticks happen ------------------------------------------------------------------------

  function Beats(trace: seq<Event>): nat {
    if trace == [] then 0 else Beats(trace[..|trace| - 1]) + (if trace[|trace| - 1].HeartbeatCall? then 1 else 0)
  }

  function Ticks(trace: seq<Event>): nat {
    if trace == [] then 0 else Ticks(trace[..|trace| - 1]) + (if trace[|trace| - 1].TickCall? then 1 else 0)
  }

  /** One interval after the last heartbeat; before the first, the start. */
  function NextBeat(trace: seq<Event>, started: real, pace: Pace): real {
    if trace == [] then started else
      match trace[|trace| - 1]
      case HeartbeatCall(now, _) => now + pace.heartbeat
      case _ => NextBeat(trace[..|trace| - 1], started, pace)
  }

  /** One interval after the last tick; before the first, the start. */
  function NextPoll(trace: seq<Event>, started: real, pace: Pace): real {
    if trace == [] then started else
      match trace[|trace| - 1]
      case TickCall(now) => now + pace.poll
      case _ => NextPoll(trace[..|trace| - 1], started, pace)
  }

  /** Each heartbeat comes a whole interval after the one before it. */
  predicate Spaced(trace: seq<Event>, started: real, pace: Pace) {
    trace == [] ||
    var n := |trace| - 1;
    && Spaced(trace[..n], started, pace)
    && (trace[n].HeartbeatCall? ==> trace[n].now >= NextBeat(trace[..n], started, pace))
  }

  lemma SawCounts(trace: seq<Event>, e: Event, started: real, pace: Pace)
    ensures Beats(trace + [e]) == Beats(trace) + (if e.HeartbeatCall? then 1 else 0)
    ensures Ticks(trace + [e]) == Ticks(trace) + (if e.TickCall? then 1 else 0)
    ensures NextBeat(trace + [e], started, pace) == if e.HeartbeatCall? then e.now + pace.heartbeat else NextBeat(trace, started, pace)
    ensures NextPoll(trace + [e], started, pace) == if e.TickCall? then e.now + pace.poll else NextPoll(trace, started, pace)
    ensures Spaced(trace + [e], started, pace) <==>
              Spaced(trace, started, pace) && (e.HeartbeatCall? ==> e.now >= NextBeat(trace, started, pace))
  {
    assert (trace + [e])[..|trace|] == trace;
  }

  /** What the loop's timers say is what its trace says. */
  predicate Timed(s: Loop, started: real, pace: Pace) {
    && (!s.latched && !Guarded(s.trace) ==> s.nextHeartbeat == Some(NextBeat(s.trace, started, pace)))
    && (s.barrier ==> FaultSeen in s.trace)
  }

  predicate Paced(s: Loop, started: real, pace: Pace) {
    Timed(s, started, pace) && s.nextMarketPoll == NextPoll(s.trace, started, pace) && Spaced(s.trace, started, pace)
  }

  /** Neither a heartbeat nor a tick. */
  predicate Silent(e: Event) { !e.HeartbeatCall? && !e.TickCall? }

  /** Both traces show the same heartbeats and ticks. */
  predicate SameBeats(before: seq<Event>, later: seq<Event>, started: real, pace: Pace) {
    && Beats(later) == Beats(before) && Ticks(later) == Ticks(before)
    && NextBeat(later, started, pace) == NextBeat(before, started, pace)
    && NextPoll(later, started, pace) == NextPoll(before, started, pace)
    && (Spaced(before, started, pace) ==> Spaced(later, started, pace))
  }

  lemma SilentSaw(trace: seq<Event>, e: Event, started: real, pace: Pace)
    requires Silent(e)
    ensures SameBeats(trace, trace + [e], started, pace)
  {
    SawCounts(trace, e, started, pace);
  }

  /** A stop or fault waits for a CLEANUP read. */
  predicate Pending(trace: seq<Event>, round: Round) { (round.stopSet || FaultSeen in trace) && CleanupRead !in trace }

  /** The heartbeat is due, as far as the trace and this round show. */
  predicate BeatDue(trace: seq<Event>, round: Round, handle: Handle, started: real, pace: Pace) {
    && Ongoing(round, handle) && round.status.phase.Active? && round.now < handle.expires
    && !round.stopSet && !Guarded(trace) && CleanupRead !in trace
    && round.now >= NextBeat(trace, started, pace)
  }

  lemma BarrierTimed(s: Loop, round: Round, handle: Handle, started: real, pace: Pace)
    requires Kept(s, handle.expires) && Paced(s, started, pace)
    ensures var turn := AfterBarrier(s, round, handle);
            && SameBeats(s.trace, turn.loop.trace, started, pace) && Timed(turn.loop, started, pace)
            && (turn.goesOn <==> (Pending(s.trace, round) ==> BarrierPassed(round, handle)))
            && turn.phase == (if turn.goesOn && Pending(s.trace, round) then Cleanup else round.status.phase)
            && turn.loop.nextMarketPoll ==
                 (if turn.goesOn && Pending(s.trace, round) then Earlier(s.nextMarketPoll, round.now) else s.nextMarketPoll)
            && (turn.loop.latched <==> s.latched || (turn.goesOn && Pending(s.trace, round)))
            && (Guarded(turn.loop.trace) <==> Guarded(s.trace) || round.stopSet)
  {
    SilentSaw(s.trace, StopSeen, started, pace);
    var t := if round.stopSet then s.Saw(StopSeen) else s;
    SilentSaw(t.trace, CleanupRead, started, pace);
  }

  /** What a heartbeat leaves: itself in the trace, the next one an interval away, or CLEANUP. */
  lemma HeartbeatTimed(s: Loop, round: Round, handle: Handle, phase: Phase, started: real, pace: Pace)
    requires Timed(s, started, pace) && (s.latched || Guarded(s.trace) ==> s.nextHeartbeat == None)
    ensures var turn := AfterHeartbeat(s, round, handle, phase, pace);
            var due := !s.latched && !Guarded(s.trace) && phase.Active? && round.now < handle.expires
                       && round.now >= NextBeat(s.trace, started, pace);
            && (turn.goesOn ==> Timed(turn.loop, started, pace))
            && Beats(turn.loop.trace) == Beats(s.trace) + (if due then 1 else 0) && Ticks(turn.loop.trace) == Ticks(s.trace)
            && NextPoll(turn.loop.trace, started, pace) == NextPoll(s.trace, started, pace)
            && (Spaced(s.trace, started, pace) ==> Spaced(turn.loop.trace, started, pace))
            && (turn.goesOn <==> !(due && round.heartbeatRaises && !round.phaseAfterHeartbeat.Cleanup?))
            && (turn.phase == if turn.goesOn && due && round.heartbeatRaises then Cleanup else phase)
            && turn.loop.nextMarketPoll ==
                 (if turn.goesOn && due && round.heartbeatRaises then Earlier(s.nextMarketPoll, round.now) else s.nextMarketPoll)
  {
    var e := HeartbeatCall(round.now, phase);
    SawCounts(s.trace, e, started, pace);
    SilentSaw(s.trace + [e], CleanupRead, started, pace);
  }

  lemma TickTimed(s: Loop, round: Round, started: real, pace: Pace)
    requires Timed(s, started, pace) && Spaced(s.trace, started, pace)
    ensures var t := AfterTick(s, round, pace).0;
            && Paced(t, started, pace) && Ticks(t.trace) == Ticks(s.trace) + 1 && Beats(t.trace) == Beats(s.trace)
  {
    var t := Ticking(s, round, pace);
    TickingTimed(s, round, started, pace);
    FaultTimed(t, started, pace);
    FinalizingTimed(t, round.phaseAfterTick, started, pace);
  }

  lemma TickingTimed(s: Loop, round: Round, started: real, pace: Pace)
    requires Timed(s, started, pace) && Spaced(s.trace, started, pace)
    ensures var t := Ticking(s, round, pace);
            Paced(t, started, pace) && Ticks(t.trace) == Ticks(s.trace) + 1 && Beats(t.trace) == Beats(s.trace)
  {
    SawCounts(s.trace, TickCall(round.now), started, pace);
  }

  lemma FaultTimed(s: Loop, started: real, pace: Pace)
    requires Paced(s, started, pace)
    ensures Paced(s.Saw(FaultSeen).(barrier := true, nextHeartbeat := None), started, pace)
    ensures SameBeats(s.trace, s.Saw(FaultSeen).trace, started, pace)
  {
    SilentSaw(s.trace, FaultSeen, started, pace);
  }

  lemma FinalizingTimed(s: Loop, phase: Phase, started: real, pace: Pace)
    requires Paced(s, started, pace)
    ensures Paced(s.Saw(FinalizeCall(phase)), started, pace)
    ensures SameBeats(s.trace, s.Saw(FinalizeCall(phase)).trace, started, pace)
  {
    SilentSaw(s.trace, FinalizeCall(phase), started, pace);
  }

  lemma ProofTimed(s: Loop, phase: Phase, started: real, pace: Pace)
    requires Timed(s, started, pace)
    ensures Timed(s.Saw(ProofCall(phase)), started, pace) && SameBeats(s.trace, s.Saw(ProofCall(phase)).trace, started, pace)
  {
    SilentSaw(s.trace, ProofCall(phase), started, pace);
  }

  lemma PollTimed(s: Loop, round: Round, phase: Phase, started: real, pace: Pace)
    requires Timed(s, started, pace) && Spaced(s.trace, started, pace)
    ensures var (t, ending) := AfterPoll(s, round, phase, pace);
            var proves := ProofTried(round, phase) && round.ambiguous.ProofRaised?;
            && Spaced(t.trace, started, pace) && (ending == None ==> Paced(t, started, pace))
            && Ticks(t.trace) == Ticks(s.trace) + (if proves then 0 else 1) && Beats(t.trace) == Beats(s.trace)
  {
    if ProofTried(round, phase) {
      ProofTimed(s, phase, started, pace);
      TickTimed(s.Saw(ProofCall(phase)), round, started, pace);
    } else {
      TickTimed(s, round, started, pace);
    }
  }

  /** Behind the barrier: the heartbeat when it is due, and a tick when the poll is. */
  lemma PastBarrierTimed(s: Loop, round: Round, handle: Handle, phase: Phase, started: real, pace: Pace)
    requires Timed(s, started, pace) && Spaced(s.trace, started, pace)
    requires s.nextMarketPoll <= round.now || s.nextMarketPoll == NextPoll(s.trace, started, pace)
    requires s.latched || Guarded(s.trace) ==> s.nextHeartbeat == None
    ensures var (t, ending) := PastBarrier(s, round, handle, phase, pace);
            var due := !s.latched && !Guarded(s.trace) && phase.Active? && round.now < handle.expires
                       && round.now >= NextBeat(s.trace, started, pace);
            var cleanup := due && round.heartbeatRaises;
            var polls := (cleanup ==> round.phaseAfterHeartbeat.Cleanup?)
                         && (cleanup || handle.expires <= round.now || s.nextMarketPoll <= round.now);
            && Beats(t.trace) == Beats(s.trace) + (if due then 1 else 0)
            && Ticks(t.trace) == Ticks(s.trace) + (if polls && !((cleanup || phase.Cleanup?) && round.ambiguous.ProofRaised?) then 1 else 0)
            && Spaced(t.trace, started, pace) && (ending == None ==> Paced(t, started, pace))
  {
    var hastened := Hastened(s, round, handle);
    HastenedTimed(s, round, handle, started, pace);
    HeartbeatTimed(hastened, round, handle, phase, started, pace);
    var beat := AfterHeartbeat(hastened, round, handle, phase, pace);
    if beat.goesOn { DuePollTimed(beat.loop, round, beat.phase, started, pace); }
  }

  lemma HastenedTimed(s: Loop, round: Round, handle: Handle, started: real, pace: Pace)
    requires Timed(s, started, pace)
    ensures var t := Hastened(s, round, handle);
            && Timed(t, started, pace) && t.(nextMarketPoll := s.nextMarketPoll) == s
            && (t.nextMarketPoll <= round.now <==> s.nextMarketPoll <= round.now || handle.expires <= round.now)
            && (t.nextMarketPoll == s.nextMarketPoll || t.nextMarketPoll <= round.now)
  {}

  /** The poll, when it is due. */
  lemma DuePollTimed(s: Loop, round: Round, phase: Phase, started: real, pace: Pace)
    requires Timed(s, started, pace) && Spaced(s.trace, started, pace)
    requires s.nextMarketPoll <= round.now || s.nextMarketPoll == NextPoll(s.trace, started, pace)
    ensures var (t, ending) := if round.now >= s.nextMarketPoll then AfterPoll(s, round, phase, pace) else (s, None);
            && Beats(t.trace) == Beats(s.trace)
            && Ticks(t.trace) == Ticks(s.trace)
                 + (if s.nextMarketPoll <= round.now && !(phase.Cleanup? && round.ambiguous.ProofRaised?) then 1 else 0)
            && Spaced(t.trace, started, pace) && (ending == None ==> Paced(t, started, pace))
  {
    if round.now >= s.nextMarketPoll { PollTimed(s, round, phase, started, pace); }
  }

  /** CLEANUP is read in this round: behind a pending stop or fault, or after a heartbeat that failed into it. */
  predicate ReadsCleanup(trace: seq<Event>, round: Round, handle: Handle, started: real, pace: Pace) {
    Pending(trace, round) || (BeatDue(trace, round, handle, started, pace) && round.heartbeatRaises)
  }

  /** The round comes to its poll: no terminal phase, the barrier is passed, and the heartbeat did not end the loop. */
  predicate ComesToPoll(trace: seq<Event>, round: Round, handle: Handle, started: real, pace: Pace) {
    && Ongoing(round, handle) && (Pending(trace, round) ==> BarrierPassed(round, handle))
    && (BeatDue(trace, round, handle, started, pace) && round.heartbeatRaises ==> round.phaseAfterHeartbeat.Cleanup?)
  }

  /** A tick happens: an interval after the last one, past expiry, or right after CLEANUP was read, unless a proof raises first. */
  predicate TickDue(trace: seq<Event>, round: Round, handle: Handle, started: real, pace: Pace) {
    var cleanup := ReadsCleanup(trace, round, handle, started, pace);
    && ComesToPoll(trace, round, handle, started, pace)
    && (cleanup || handle.expires <= round.now || NextPoll(trace, started, pace) <= round.now)
    && !((cleanup || round.status.phase.Cleanup?) && round.ambiguous.ProofRaised?)
  }

  /**
    What an iteration does is decided by the trace and the round alone: a heartbeat exactly when one is
    due, a tick exactly when one is, at most one of each, and the timers keep saying what the trace says.
  */
  lemma BeatsAndTicksWhenDue(s: Loop, round: Round, handle: Handle, started: real, pace: Pace)
    requires Kept(s, handle.expires) && Paced(s, started, pace)
    ensures var (t, ending) := AfterIteration(s, round, handle, pace);
            && Beats(t.trace) == Beats(s.trace) + (if BeatDue(s.trace, round, handle, started, pace) then 1 else 0)
            && Ticks(t.trace) == Ticks(s.trace) + (if TickDue(s.trace, round, handle, started, pace) then 1 else 0)
            && Spaced(t.trace, started, pace)
            && (ending == None ==> Paced(t, started, pace))
  {
    TerminalTurn(s, round, handle);
    SilentSaw(s.trace, ResumeCall, started, pace);
    SilentSaw(s.trace, DeadlineCall, started, pace);
    if Ongoing(round, handle) {
      BarrierTimed(s, round, handle, started, pace);
      BarrierQuiet(s, round, handle);
      var barrier := AfterBarrier(s, round, handle);
      if barrier.goesOn { PastBarrierTimed(barrier.loop, round, handle, barrier.phase, started, pace); }
    }
  }

  lemma BarrierQuiet(s: Loop, round: Round, handle: Handle)
    requires Kept(s, handle.expires)
    ensures var t := AfterBarrier(s, round, handle).loop; t.latched || Guarded(t.trace) ==> t.nextHeartbeat == None
  {}

  lemma {:induction false} RunPaced(s: Loop, rounds: seq<Round>, handle: Handle, started: real, pace: Pace)
    requires Kept(s, handle.expires) && Paced(s, started, pace) && StopStaysSet(rounds)
    requires StopSeen in s.trace && rounds != [] ==> rounds[0].stopSet
    ensures Spaced(RunFrom(s, rounds, handle, pace).trace, started, pace)
    decreases |rounds|
  {
    if rounds != [] {
      IterationKept(s, rounds[0], handle, pace);
      BeatsAndTicksWhenDue(s, rounds[0], handle, started, pace);
      var turn := AfterIteration(s, rounds[0], handle, pace);
      if turn.1 == None { RunPaced(turn.0, rounds[1..], handle, started, pace); }
    }
  }

  /** In every run each heartbeat comes a whole interval after the one before it. */
  lemma RunIsSpaced(rounds: seq<Round>, handle: Handle, started: real, pace: Pace)
    requires StopStaysSet(rounds)
    ensures Spaced(RunFrom(Start(started), rounds, handle, pace).trace, started, pace)
  {
    RunPaced(Start(started), rounds, handle, started, pace);
  }

  /** Where a loop stands after these iterations; None when it has ended. */
  function LoopAfter(s: Loop, rounds: seq<Round>, handle: Handle, pace: Pace): Option<Loop>
    decreases |rounds|
  {
    if rounds == [] then Some(s)
    else
      var turn := AfterIteration(s, rounds[0], handle, pace);
      if turn.1.Some? then None else LoopAfter(turn.0, rounds[1..], handle, pace)
  }

  /** Between any two iterations of a run the timers say what the trace says, so each iteration acts when it is due. */
  lemma {:induction false} RunKeepsPace(s: Loop, rounds: seq<Round>, handle: Handle, started: real, pace: Pace)
    requires Kept(s, handle.expires) && Paced(s, started, pace) && StopStaysSet(rounds)
    requires StopSeen in s.trace && rounds != [] ==> rounds[0].stopSet
    ensures var t := LoopAfter(s, rounds, handle, pace);
            t.Some? ==> Kept(t.value, handle.expires) && Paced(t.value, started, pace)
    decreases |rounds|
  {
    if rounds != [] {
      IterationKept(s, rounds[0], handle, pace);
      BeatsAndTicksWhenDue(s, rounds[0], handle, started, pace);
      var turn := AfterIteration(s, rounds[0], handle, pace);
      if turn.1 == None { RunKeepsPace(turn.0, rounds[1..], handle, started, pace); }
    }
  }

  // ---- A loop that is no barrier any more --------------------------------------------------------------------

  const OWNER := Handle(1, 1, 7200.0, 10800.0)
  const PACE := Pace(20.0, 5.0)

  /** An iteration in which only clock, phase, revision and tick matter. */
  function PlainRound(now: real, phase: Phase, revision: int, tick: TickAnswer): Round {
    var epoch := OwnerEpoch(phase, 1, 1, Some(revision));
    Round(now, epoch, false, true, false, FinalizedPhase, None, epoch, Verified(epoch), false, Cleanup, NothingDue, tick, phase, true)
  }

  const FAULT_ROUND := PlainRound(0.0, Active, 1, TickFault)
  const CLEANUP_ROUND := PlainRound(5.0, Cleanup, 2, TickFault)
  const ACTIVE_ROUND := PlainRound(10.0, Active, 3, Ticked(true))

  const FAULTED := Loop(None, 5.0, false, true, [HeartbeatCall(0.0, Active), TickCall(0.0), FaultSeen])
  const FAULTED_AGAIN := Loop(None, 10.0, true, true, FAULTED.trace + [CleanupRead, TickCall(5.0), FaultSeen])
  const FORGETFUL := Loop(None, 15.0, true, true, FAULTED_AGAIN.trace + [TickCall(10.0)])

  lemma ThreeRounds()
    ensures AfterIteration(Start(0.0), FAULT_ROUND, OWNER, PACE) == (FAULTED, None)
    ensures AfterIteration(FAULTED, CLEANUP_ROUND, OWNER, PACE) == (FAULTED_AGAIN, None)
    ensures AfterIteration(FAULTED_AGAIN, ACTIVE_ROUND, OWNER, PACE) == (FORGETFUL, None)
  {
    assert [] + [HeartbeatCall(0.0, Active)] + [TickCall(0.0)] + [FaultSeen] == FAULTED.trace;
    assert BarrierPassed(CLEANUP_ROUND, OWNER);
    assert FAULTED.trace + [CleanupRead] + [TickCall(5.0)] + [FaultSeen] == FAULTED_AGAIN.trace;
  }

  /**
    A fault in ACTIVE, a verified CLEANUP whose tick faults again, a manager that reports ACTIVE once
    more: the first fault is answered by a CLEANUP read before the next tick, the second is followed
    by a tick at once.
  */
  lemma SecondFaultIsForgotten()
    ensures StopStaysSet([FAULT_ROUND, CLEANUP_ROUND, ACTIVE_ROUND])
    ensures RunFrom(Start(0.0), [FAULT_ROUND, CLEANUP_ROUND, ACTIVE_ROUND], OWNER, PACE) == Outcome(None, FORGETFUL.trace, 3)
    ensures FORGETFUL.trace ==
              [HeartbeatCall(0.0, Active), TickCall(0.0), FaultSeen, CleanupRead, TickCall(5.0), FaultSeen, TickCall(10.0)]
  {
    ThreeRounds();
    var rounds := [FAULT_ROUND, CLEANUP_ROUND, ACTIVE_ROUND];
    assert rounds[1..] == [CLEANUP_ROUND, ACTIVE_ROUND];
    assert rounds[1..][1..] == [ACTIVE_ROUND];
    assert rounds[1..][1..][1..] == [];
    assert RunFrom(FORGETFUL, [], OWNER, PACE) == Outcome(None, FORGETFUL.trace, 0);
    assert RunFrom(FAULTED_AGAIN, [ACTIVE_ROUND], OWNER, PACE) == Outcome(None, FORGETFUL.trace, 1);
    assert RunFrom(FAULTED, [CLEANUP_ROUND, ACTIVE_ROUND], OWNER, PACE) == Outcome(None, FORGETFUL.trace, 2);
  }
}
