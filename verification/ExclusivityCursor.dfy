/**
  The exclusivity cursor and its hash-chained event log: one mutable cursor row a session, which must
  always agree with an append-only log whose phases form a fixed language.

  Hashes are the injective terms they hash, so equal hashes mean equal contents.  A proof handed to
  `ConsumeCursor` has passed the verifier, which pins the authority journal.
*/
module ExclusivityCursor {
  import opened FunctionalVocabulary

  datatype Phase = Baseline | Activation | PrePost | Terminal

  /** The signed payload of a proof, as far as the cursor looks at it. */
  datatype Payload = Payload(
    session: nat,
    sequence: int,
    phase: Phase,
    request: nat,
    previous: ProofHash,
    identity: Identity,
    journal: nat,
    observed: real)

  datatype Identity = Identity(account: nat, credential: nat, owner: nat)

  /** The hash of payload, payload hash and signature; ZeroProof for the all-zero hash. */
  datatype ProofHash = ZeroProof | ProofOf(payload: Payload, signature: nat)

  datatype EventBody = EventBody(
    session: nat,
    sequence: int,
    phase: Phase,
    proof: ProofHash,
    request: nat,
    previousProof: ProofHash,
    previousEvent: EventHash)

  datatype EventHash = ZeroEvent | EventOf(body: EventBody)

  /** A stored event row; its hash column need not be the hash of the rest. */
  datatype Event = Event(body: EventBody, eventHash: EventHash)

  datatype CursorBody = CursorBody(
    session: nat,
    identity: Identity,
    journal: nat,
    sequence: int,
    proof: ProofHash,
    request: nat,
    observed: real,
    lastPhase: Phase,
    terminal: bool,
    revision: int)

  datatype CursorRow = CursorRow(body: CursorBody, rowHash: CursorBody)
  {
    predicate RowValid() { rowHash == body }
  }

  predicate PhaseTransition(previous: Phase, current: Phase) {
    || (previous.Baseline? && current.Activation?)
    || ((previous.Activation? || previous.PrePost?) && (current.PrePost? || current.Terminal?))
  }

  // ---- The chain -------------------------------------------------------------------------------------

  function HeadProof(log: seq<Event>): ProofHash { if log == [] then ZeroProof else log[|log| - 1].body.proof }
  function HeadEvent(log: seq<Event>): EventHash { if log == [] then ZeroEvent else log[|log| - 1].eventHash }

  /** `e` continues `log`. */
  predicate Continues(session: nat, log: seq<Event>, e: Event) {
    && e.body.session == session
    && e.body.sequence == |log| + 1
    && e.body.previousProof == HeadProof(log)
    && e.body.previousEvent == HeadEvent(log)
    && e.eventHash == EventOf(e.body)
    && (if log == [] then e.body.phase.Baseline? else PhaseTransition(log[|log| - 1].body.phase, e.body.phase))
  }

  predicate Chained(session: nat, log: seq<Event>) {
    log == [] || (Chained(session, log[..|log| - 1]) && Continues(session, log[..|log| - 1], log[|log| - 1]))
  }

  /** BASELINE (ACTIVATION (PRE_POST* TERMINAL?)?)?, never empty. */
  predicate PhaseLanguage(phases: seq<Phase>) {
    && |phases| >= 1 && phases[0].Baseline?
    && (|phases| >= 2 ==> phases[1].Activation?)
    && (forall i :: 2 <= i < |phases| - 1 ==> phases[i].PrePost?)
    && (|phases| >= 3 ==> phases[|phases| - 1].PrePost? || phases[|phases| - 1].Terminal?)
  }

  function Phases(log: seq<Event>): seq<Phase> { seq(|log|, i requires 0 <= i < |log| => log[i].body.phase) }

  /** The phases of a chain are exactly the phase language. */
  lemma {:induction false} ChainSpeaksPhaseLanguage(session: nat, log: seq<Event>)
    requires log != [] && Chained(session, log)
    ensures PhaseLanguage(Phases(log))
  {
    var n := |log| - 1;
    if n > 0 {
      ChainSpeaksPhaseLanguage(session, log[..n]);
      var before := Phases(log[..n]);
      assert forall i :: 0 <= i < n ==> Phases(log)[i] == before[i];
    }
  }

  /** Words of the language grow one legal phase at a time. */
  lemma PhaseLanguageStep(phases: seq<Phase>)
    requires PhaseLanguage(phases) && |phases| > 1
    ensures PhaseLanguage(phases[..|phases| - 1]) && PhaseTransition(phases[|phases| - 2], phases[|phases| - 1])
  {}

  /** And every word of the language is the phases of some chain: the language is exact. */
  lemma {:induction false} PhaseLanguageHasChain(session: nat, phases: seq<Phase>) returns (log: seq<Event>)
    requires PhaseLanguage(phases)
    ensures Chained(session, log) && Phases(log) == phases
    decreases |phases|
  {
    var n := |phases| - 1;
    var before: seq<Event> := [];
    if n > 0 {
      PhaseLanguageStep(phases);
      before := PhaseLanguageHasChain(session, phases[..n]);
      assert |Phases(before)| == n && Phases(before)[n - 1] == phases[..n][n - 1];
    }
    var body := EventBody(session, n + 1, phases[n], ZeroProof, n, HeadProof(before), HeadEvent(before));
    log := before + [Event(body, EventOf(body))];
    assert log[..n] == before && Continues(session, before, log[n]);
    forall i | 0 <= i < n ensures Phases(log)[i] == phases[i] {
      assert Phases(before)[i] == phases[..n][i];
    }
  }

  lemma HeadEventIsHash(session: nat, log: seq<Event>)
    requires Chained(session, log) && log != []
    ensures HeadEvent(log) == EventOf(log[|log| - 1].body)
    ensures log[|log| - 1].body.previousEvent == HeadEvent(log[..|log| - 1])
  {
    assert Continues(session, log[..|log| - 1], log[|log| - 1]);
  }

  /** Two chains with the same head event hash are the same log: the head seals the whole history. */
  lemma {:induction false} HeadSealsLog(a: nat, first: seq<Event>, b: nat, second: seq<Event>)
    requires Chained(a, first) && Chained(b, second)
    requires HeadEvent(first) == HeadEvent(second)
    ensures first == second
    decreases |first|
  {
    if first != [] { HeadEventIsHash(a, first); }
    if second != [] { HeadEventIsHash(b, second); }
    if first != [] && second != [] {
      var n, m := |first| - 1, |second| - 1;
      HeadSealsLog(a, first[..n], b, second[..m]);
      assert first == first[..n] + [first[n]] && second == second[..m] + [second[m]];
    }
  }

  lemma {:induction false} ChainedAt(session: nat, log: seq<Event>, i: nat)
    requires Chained(session, log) && i < |log|
    ensures Chained(session, log[..i]) && Continues(session, log[..i], log[i])
    decreases |log|
  {
    var n := |log| - 1;
    if i < n {
      ChainedAt(session, log[..n], i);
      assert log[..n][..i] == log[..i];
    }
  }

  lemma {:induction false} ContinuingIsChained(session: nat, log: seq<Event>)
    requires forall i :: 0 <= i < |log| ==> Continues(session, log[..i], log[i])
    ensures Chained(session, log)
  {
    if log != [] {
      var n := |log| - 1;
      forall i | 0 <= i < n ensures Continues(session, log[..n][..i], log[..n][i]) {
        assert log[..n][..i] == log[..i];
      }
      ContinuingIsChained(session, log[..n]);
    }
  }

  /** Every break is found: a log is a chain exactly when every event continues those before it. */
  lemma ChainedEverywhere(session: nat, log: seq<Event>)
    ensures Chained(session, log) <==> forall i :: 0 <= i < |log| ==> Continues(session, log[..i], log[i])
  {
    if Chained(session, log) {
      forall i | 0 <= i < |log| ensures Continues(session, log[..i], log[i]) { ChainedAt(session, log, i); }
    }
    if forall i :: 0 <= i < |log| ==> Continues(session, log[..i], log[i]) { ContinuingIsChained(session, log); }
  }

  // ---- The cursor agrees with the log -----------------------------------------------------------------

  /** The event records this very payload. */
  predicate Records(e: Event, p: Payload) {
    e.body.session == p.session && e.body.sequence == p.sequence && e.body.phase == p.phase
    && e.body.request == p.request && e.body.previousProof == p.previous
  }

  /** Every event records the payload sealed in its proof hash, under the pinned journal, in time order. */
  ghost predicate RecordsProofs(log: seq<Event>, journal: nat) {
    && (forall i :: 0 <= i < |log| ==>
          log[i].body.proof.ProofOf? && Records(log[i], log[i].body.proof.payload) && log[i].body.proof.payload.journal == journal)
    && (forall i, j :: 0 <= i < j < |log| ==>
          && log[i].body.request != log[j].body.request
          && log[i].body.proof.payload.observed < log[j].body.proof.payload.observed)
  }

  /** Everything the cursor row says is derived from the log. */
  function Derived(session: nat, log: seq<Event>): CursorBody
    requires log != [] && HeadProof(log).ProofOf?
  {
    var last := log[|log| - 1].body;
    var p := last.proof.payload;
    CursorBody(
      session, p.identity, p.journal, |log|, last.proof, last.request, p.observed, last.phase, last.phase.Terminal?, |log|)
  }

  ghost predicate Agrees(session: nat, row: CursorRow, log: seq<Event>, journal: nat) {
    && log != [] && Chained(session, log) && RecordsProofs(log, journal)
    && row.RowValid() && row.body == Derived(session, log)
  }

  /** The three comparisons every reader makes between the cursor and the head of the log. */
  predicate HeadsMatch(row: CursorRow, log: seq<Event>) {
    && log != []
    && row.body.sequence == |log| && row.body.proof == HeadProof(log) && row.body.request == log[|log| - 1].body.request
  }

  /** The cursor is about the last event of this log. */
  predicate Heads(cursor: CursorBody, log: seq<Event>) {
    && log != [] && cursor.sequence == |log|
    && var head := log[|log| - 1].body; cursor.proof == head.proof && cursor.request == head.request
  }

  /** This proof extends the session's chain by one. */
  predicate NextProof(row: CursorRow, p: Payload) {
    && !row.body.terminal
    && p.sequence == row.body.sequence + 1
    && p.previous == row.body.proof
    && PhaseTransition(row.body.lastPhase, p.phase)
    && p.observed > row.body.observed
  }

  predicate GenesisProof(p: Payload) { p.sequence == 1 && p.phase.Baseline? && p.previous == ZeroProof }

  function NewEvent(p: Payload, signature: nat, previousEvent: EventHash): Event {
    var body := EventBody(p.session, p.sequence, p.phase, ProofOf(p, signature), p.request, p.previous, previousEvent);
    Event(body, EventOf(body))
  }

  function NewCursor(p: Payload, signature: nat, revision: int): CursorRow {
    var body := CursorBody(
      p.session, p.identity, p.journal, p.sequence, ProofOf(p, signature), p.request, p.observed, p.phase, p.phase.Terminal?, revision);
    CursorRow(body, body)
  }

  predicate RequestUsed(log: seq<Event>, request: nat) { exists e :: e in log && e.body.request == request }

  lemma GenesisAgrees(p: Payload, signature: nat)
    requires GenesisProof(p)
    ensures Agrees(p.session, NewCursor(p, signature, 1), [NewEvent(p, signature, ZeroEvent)], p.journal)
  {
    var log := [NewEvent(p, signature, ZeroEvent)];
    assert log[..|log| - 1] == [];
    assert Continues(p.session, [], log[0]);
  }

  /** Appending the next proof and overwriting the cursor keeps them in agreement. */
  lemma AppendAgrees(row: CursorRow, log: seq<Event>, p: Payload, signature: nat)
    requires Agrees(p.session, row, log, p.journal) && NextProof(row, p) && !RequestUsed(log, p.request)
    ensures Agrees(p.session, NewCursor(p, signature, row.body.revision + 1), log + [NewEvent(p, signature, HeadEvent(log))], p.journal)
  {
    var e := NewEvent(p, signature, HeadEvent(log));
    var longer := log + [e];
    assert longer[..|log|] == log;
    assert Continues(p.session, log, e);
    var last := |log| - 1;
    forall i | 0 <= i < |log|
      ensures longer[i].body.request != p.request && longer[i].body.proof.payload.observed < p.observed
    {
      assert log[i] in log;
      assert log[i].body.proof.payload.observed <= log[last].body.proof.payload.observed;
    }
  }

  // ---- What one proof may do ---------------------------------------------------------------------------

  /** The branches of _consume_cursor: `Done(true)` appends, `Done(false)` is the head again. */
  function Admission(row: Option<CursorRow>, log: seq<Event>, p: Payload, signature: nat): Reply<bool> {
    match row
    case None =>
      if !GenesisProof(p) then Blocked("authority chain genesis is invalid")
      else if exists e :: e in log && (e.body.sequence == 1 || e.body.request == p.request) then Blocked("event is already recorded")
      else Done(true)
    case Some(current) =>
      if !current.RowValid() then Blocked("durable cursor is tampered")
      else if log == [] || !Chained(p.session, log) then Blocked("durable event chain is missing or tampered")
      else if !HeadsMatch(current, log) then Blocked("durable cursor/event mismatch")
      else if current.body.proof == ProofOf(p, signature) && current.body.request == p.request && current.body.sequence == p.sequence then
        Done(false)
      else if !NextProof(current, p) then Blocked("authority chain is discontinuous")
      else if RequestUsed(log, p.request) then Blocked("proof request is already recorded")
      else Done(true)
  }

  /** On a store whose cursor agrees with its log, a proof is the head again, the next one, or refused. */
  lemma AdmissionWhenAgreeing(row: CursorRow, log: seq<Event>, p: Payload, signature: nat, journal: nat)
    requires Agrees(p.session, row, log, journal)
    ensures var reply := Admission(Some(row), log, p, signature);
            && (reply.Done? <==> HeadProof(log) == ProofOf(p, signature) || (NextProof(row, p) && !RequestUsed(log, p.request)))
            && (reply.Done? ==> (reply.value <==> HeadProof(log) != ProofOf(p, signature)))
  {
    var last := log[|log| - 1];
    assert Records(last, last.body.proof.payload);
    assert Continues(p.session, log[..|log| - 1], last);
  }

  /** An agreeing store reports a payload consumed exactly when the log holds its proof. */
  lemma ConsumedWhenAgreeing(row: CursorRow, log: seq<Event>, p: Payload, signature: nat, journal: nat)
    requires Agrees(p.session, row, log, journal)
    ensures ReportsConsumed(row, log, p, signature) <==> exists e :: e in log && e.body.proof == ProofOf(p, signature)
  {
    if e :| e in log && e.body.proof == ProofOf(p, signature) {
      var i :| 0 <= i < |log| && log[i] == e;
      assert Records(log[i], p);
      ChainedAt(p.session, log, i);
    }
  }

  predicate ReportsConsumed(row: CursorRow, log: seq<Event>, p: Payload, signature: nat) {
    && 1 <= p.sequence <= |log|
    && var selected := log[p.sequence - 1];
       && row.RowValid() && p.sequence <= row.body.sequence
       && selected.body.proof == ProofOf(p, signature) && selected.body.request == p.request
       && row.body.journal == p.journal && HeadsMatch(row, log)
  }

  /** The log after an admitted proof; a genesis event sorts before whatever a foreign hand left there. */
  function Appended(row: Option<CursorRow>, log: seq<Event>, p: Payload, signature: nat): seq<Event> {
    if row == None then [NewEvent(p, signature, ZeroEvent)] + log else log + [NewEvent(p, signature, HeadEvent(log))]
  }

  function NextRevision(row: Option<CursorRow>): int { if row == None then 1 else row.value.body.revision + 1 }

  /** Admitting a proof keeps cursor and log in agreement. */
  lemma AdmittedAgrees(row: Option<CursorRow>, log: seq<Event>, p: Payload, signature: nat)
    requires if row == None then log == [] else Agrees(p.session, row.value, log, p.journal)
    requires Admission(row, log, p, signature) == Done(true)
    ensures Agrees(p.session, NewCursor(p, signature, NextRevision(row)), Appended(row, log, p, signature), p.journal)
  {
    if row == None {
      GenesisAgrees(p, signature);
      assert Appended(row, log, p, signature) == [NewEvent(p, signature, ZeroEvent)];
    } else {
      AppendAgrees(row.value, log, p, signature);
    }
  }

  // ---- Exactly the continuations of the log are admitted -----------------------------------------------

  /** An event that seals this proof. */
  predicate Seals(e: Event, p: Payload, signature: nat) { e.body.proof == ProofOf(p, signature) }

  /** The log stays a chain of recorded proofs when this event is added. */
  ghost predicate Extendable(session: nat, log: seq<Event>, e: Event, journal: nat) {
    Chained(session, log + [e]) && RecordsProofs(log + [e], journal)
  }

  lemma ExtensionIsNext(row: CursorRow, log: seq<Event>, p: Payload, signature: nat, e: Event)
    requires Agrees(p.session, row, log, p.journal) && Seals(e, p, signature) && Extendable(p.session, log, e, p.journal)
    ensures NextProof(row, p) && !RequestUsed(log, p.request) && HeadProof(log) != ProofOf(p, signature)
  {
    var longer, n := log + [e], |log|;
    assert longer[..n] == log && longer[n] == e && Records(longer[n], p);
    forall i | 0 <= i < n ensures log[i].body.request != p.request {
      assert longer[i] == log[i];
    }
  }

  /**
    On a session whose cursor agrees with its log a proof is consumed as new exactly when some event
    that seals it keeps the log a chain of recorded proofs: no continuation is refused, and nothing
    else is let in.
  */
  lemma AdmittedExactly(row: CursorRow, log: seq<Event>, p: Payload, signature: nat)
    requires Agrees(p.session, row, log, p.journal)
    ensures Admission(Some(row), log, p, signature) == Done(true) <==>
              exists e :: Seals(e, p, signature) && Extendable(p.session, log, e, p.journal)
  {
    AdmissionWhenAgreeing(row, log, p, signature, p.journal);
    if Admission(Some(row), log, p, signature) == Done(true) {
      AppendAgrees(row, log, p, signature);
      var e := NewEvent(p, signature, HeadEvent(log));
      assert Seals(e, p, signature) && Extendable(p.session, log, e, p.journal);
    }
    if e :| Seals(e, p, signature) && Extendable(p.session, log, e, p.journal) {
      ExtensionIsNext(row, log, p, signature, e);
    }
  }

  /** Nothing new is ever consumed on a terminal or tampered cursor, or on a broken chain, whatever else it says. */
  lemma NothingBeyondTerminal(row: CursorRow, log: seq<Event>, p: Payload, signature: nat)
    requires Admission(Some(row), log, p, signature) == Done(true)
    ensures !row.body.terminal && row.rowHash == row.body && Chained(p.session, log) && Heads(row.body, log)
    ensures row.body.observed < p.observed && !RequestUsed(log, p.request)
  {}

  /** Without a cursor a proof is consumed exactly when it starts a chain and no event left there takes its place or its request. */
  lemma GenesisExactly(log: seq<Event>, p: Payload, signature: nat)
    ensures Admission(None, log, p, signature) == Done(true) <==>
              && (forall left :: left in log ==> left.body.sequence != 1 && left.body.request != p.request)
              && exists e :: Seals(e, p, signature) && Extendable(p.session, [], e, p.journal)
  {
    if GenesisProof(p) { GenesisExtends(p, signature); }
    if e :| Seals(e, p, signature) && Extendable(p.session, [], e, p.journal) { FirstIsGenesis(p, signature, e); }
  }

  lemma GenesisExtends(p: Payload, signature: nat)
    requires GenesisProof(p)
    ensures Seals(NewEvent(p, signature, ZeroEvent), p, signature)
    ensures Extendable(p.session, [], NewEvent(p, signature, ZeroEvent), p.journal)
  {
    GenesisAgrees(p, signature);
    assert [] + [NewEvent(p, signature, ZeroEvent)] == [NewEvent(p, signature, ZeroEvent)];
  }

  lemma FirstIsGenesis(p: Payload, signature: nat, e: Event)
    requires Seals(e, p, signature) && Extendable(p.session, [], e, p.journal)
    ensures GenesisProof(p)
  {
    var log := [] + [e];
    assert log == [e] && log[..0] == [] && Records(log[0], p);
  }

  function HighestRequest(log: seq<Event>): nat {
    if log == [] then 0 else
      var rest, last := HighestRequest(log[..|log| - 1]), log[|log| - 1].body.request;
      if last > rest then last else rest
  }

  lemma {:induction false} HighestIsUnused(log: seq<Event>, request: nat)
    requires request > HighestRequest(log)
    ensures !RequestUsed(log, request)
  {
    if log != [] {
      assert log == log[..|log| - 1] + [log[|log| - 1]];
      HighestIsUnused(log[..|log| - 1], request);
    }
  }

  /** A proof of this phase, later than all before and with a request of its own. */
  function FollowUp(session: nat, row: CursorRow, log: seq<Event>, phase: Phase, journal: nat): Payload {
    Payload(
      session, |log| + 1, phase, HighestRequest(log) + 1, HeadProof(log), row.body.identity, journal, row.body.observed + 1.0)
  }

  lemma LongerWord(log: seq<Event>, e: Event)
    ensures Phases(log + [e]) == Phases(log) + [e.body.phase]
  {}

  lemma LastOfWord(phases: seq<Phase>, phase: Phase)
    requires phases != []
    ensures PhaseLanguage(phases + [phase]) ==> PhaseTransition(phases[|phases| - 1], phase)
  {
    if PhaseLanguage(phases + [phase]) { PhaseLanguageStep(phases + [phase]); }
  }

  /** Every word the phase language allows next can be consumed, and no other. */
  lemma NextWordIsConsumable(session: nat, row: CursorRow, log: seq<Event>, phase: Phase, journal: nat)
    requires Agrees(session, row, log, journal)
    ensures PhaseLanguage(Phases(log) + [phase]) <==>
              exists p: Payload, signature ::
                p.session == session && p.journal == journal && p.phase == phase && Admission(Some(row), log, p, signature) == Done(true)
  {
    if PhaseLanguage(Phases(log) + [phase]) {
      var p := FollowUp(session, row, log, phase, journal);
      LastOfWord(Phases(log), phase);
      HighestIsUnused(log, p.request);
      AdmissionWhenAgreeing(row, log, p, 0, journal);
      HeadIsEarlier(session, row, log, p, 0, journal);
      assert Admission(Some(row), log, p, 0) == Done(true);
    }
    if p: Payload, signature :| p.session == session && p.journal == journal && p.phase == phase && Admission(Some(row), log, p, signature) == Done(true) {
      AdmissionWhenAgreeing(row, log, p, signature, journal);
      AppendAgrees(row, log, p, signature);
      var e := NewEvent(p, signature, HeadEvent(log));
      LongerWord(log, e);
      ChainSpeaksPhaseLanguage(session, log + [e]);
    }
  }

  lemma HeadIsEarlier(session: nat, row: CursorRow, log: seq<Event>, p: Payload, signature: nat, journal: nat)
    requires Agrees(session, row, log, journal) && p.observed > row.body.observed
    ensures HeadProof(log) != ProofOf(p, signature)
  {}

  // ---- The store -----------------------------------------------------------------------------------------

  function RowOf(cursors: map<nat, CursorRow>, session: nat): Option<CursorRow> {
    if session in cursors then Some(cursors[session]) else None
  }

  function LogOf(events: map<nat, seq<Event>>, session: nat): seq<Event> { if session in events then events[session] else [] }

  ghost predicate SessionAgrees(cursors: map<nat, CursorRow>, events: map<nat, seq<Event>>, journal: nat, s: nat) {
    if s in cursors then Agrees(s, cursors[s], LogOf(events, s), journal) else LogOf(events, s) == []
  }

  ghost predicate StoreAgrees(cursors: map<nat, CursorRow>, events: map<nat, seq<Event>>, journal: nat) {
    forall s :: SessionAgrees(cursors, events, journal, s)
  }

  /** Rewriting one session's cursor and log leaves the others in agreement. */
  lemma OthersAgree(cursors: map<nat, CursorRow>, events: map<nat, seq<Event>>, journal: nat, s: nat, row: CursorRow, log: seq<Event>)
    requires StoreAgrees(cursors, events, journal) && Agrees(s, row, log, journal)
    ensures StoreAgrees(cursors[s := row], events[s := log], journal)
  {
    var cursors', events' := cursors[s := row], events[s := log];
    forall t ensures SessionAgrees(cursors', events', journal, t) {
      assert SessionAgrees(cursors, events, journal, t);
    }
  }

  /** Consuming an admitted proof keeps every session in agreement. */
  lemma AdmittedKeepsStore(cursors: map<nat, CursorRow>, events: map<nat, seq<Event>>, p: Payload, signature: nat)
    requires StoreAgrees(cursors, events, p.journal)
    requires Admission(RowOf(cursors, p.session), LogOf(events, p.session), p, signature) == Done(true)
    ensures StoreAgrees(
              cursors[p.session := NewCursor(p, signature, NextRevision(RowOf(cursors, p.session)))],
              events[p.session := Appended(RowOf(cursors, p.session), LogOf(events, p.session), p, signature)],
              p.journal)
  {
    var row, log := RowOf(cursors, p.session), LogOf(events, p.session);
    assert SessionAgrees(cursors, events, p.journal, p.session);
    AdmittedAgrees(row, log, p, signature);
    OthersAgree(cursors, events, p.journal, p.session, NewCursor(p, signature, NextRevision(row)), Appended(row, log, p, signature));
  }

  class ExclusivityProvider {
    const journal: nat
    var cursors: map<nat, CursorRow>
    /** Each session's events by authority sequence. */
    var events: map<nat, seq<Event>>

    constructor (journal: nat)
      ensures Valid() && cursors == map[]
    {
      this.journal := journal;
      cursors, events := map[], map[];
    }

    function Log(session: nat): seq<Event> reads this { LogOf(events, session) }

    function Row(session: nat): Option<CursorRow> reads this { RowOf(cursors, session) }

    ghost predicate ValidSession(s: nat) reads this { SessionAgrees(cursors, events, journal, s) }

    /** Cursor and log agree for every session there is. */
    ghost predicate Valid() reads this { StoreAgrees(cursors, events, journal) }

    /** The chain walk every reader starts with: the head, or nothing if the chain is missing or broken. */
    method ValidateEvents(session: nat) returns (head: Option<Event>)
      ensures head.Some? <==> Log(session) != [] && Chained(session, Log(session))
      ensures head.Some? ==> head.value == Log(session)[|Log(session)| - 1]
    {
      var rows := Log(session);
      var previousProof, previousEvent := ZeroProof, ZeroEvent;
      var previousPhase := Baseline;
      var i := 0;
      while i < |rows|
        invariant 0 <= i <= |rows|
        invariant Chained(session, rows[..i])
        invariant previousProof == HeadProof(rows[..i]) && previousEvent == HeadEvent(rows[..i])
        invariant i > 0 ==> previousPhase == rows[i - 1].body.phase
      {
        var row := rows[i];
        if row.body.session != session || row.body.sequence != i + 1 || row.body.previousProof != previousProof
           || row.body.previousEvent != previousEvent || row.eventHash != EventOf(row.body)
           || (i == 0 && row.body.phase != Baseline)
           || (i > 0 && !PhaseTransition(previousPhase, row.body.phase))
        {
          BreakFound(session, rows, i);
          return None;
        }
        assert rows[..i + 1][..i] == rows[..i];
        previousProof, previousEvent, previousPhase := row.body.proof, row.eventHash, row.body.phase;
        i := i + 1;
      }
      assert rows[..i] == rows;
      if rows == [] { return None; }
      return Some(rows[|rows| - 1]);
    }

    /** The decision, and what the new event and cursor row continue from. */
    method Admit(p: Payload, signature: nat) returns (reply: Reply<bool>, revision: int, previousEvent: EventHash)
      ensures reply == Admission(Row(p.session), Log(p.session), p, signature)
      ensures reply == Done(true) ==>
                && revision == NextRevision(Row(p.session))
                && previousEvent == (if Row(p.session) == None then ZeroEvent else HeadEvent(Log(p.session)))
    {
      revision, previousEvent := 1, ZeroEvent;
      var log := Log(p.session);
      if p.session !in cursors {
        reply := Admission(None, log, p, signature);
        return;
      }
      var current := cursors[p.session];
      if !current.RowValid() { return Blocked("durable cursor is tampered"), 0, ZeroEvent; }
      var head := ValidateEvents(p.session);
      if head == None { return Blocked("durable event chain is missing or tampered"), 0, ZeroEvent; }
      if !HeadsMatch(current, log) { return Blocked("durable cursor/event mismatch"), 0, ZeroEvent; }
      if current.body.proof == ProofOf(p, signature) && current.body.request == p.request && current.body.sequence == p.sequence {
        return Done(false), 0, ZeroEvent;
      }
      if !NextProof(current, p) { return Blocked("authority chain is discontinuous"), 0, ZeroEvent; }
      if RequestUsed(log, p.request) { return Blocked("proof request is already recorded"), 0, ZeroEvent; }
      return Done(true), current.body.revision + 1, head.value.eventHash;
    }

    /**
      Consume one verified proof.  An admitted proof is appended to its session's log and overwrites
      its cursor row; the head again, or a refused proof, changes nothing; other sessions never
      change; and cursors keep agreeing with logs.
    */
    method ConsumeCursor(p: Payload, signature: nat) returns (reply: Reply<bool>)
      requires p.journal == journal
      modifies this
      ensures reply == Admission(old(Row(p.session)), old(Log(p.session)), p, signature)
      ensures reply == Done(true) ==>
                && events == old(events)[p.session := Appended(old(Row(p.session)), old(Log(p.session)), p, signature)]
                && cursors == old(cursors)[p.session := NewCursor(p, signature, NextRevision(old(Row(p.session))))]
      ensures reply != Done(true) ==> cursors == old(cursors) && events == old(events)
      ensures old(Valid()) ==> Valid()
    {
      var revision, previousEvent;
      reply, revision, previousEvent := Admit(p, signature);
      if reply != Done(true) { return; }
      var log := Log(p.session);
      var e := NewEvent(p, signature, previousEvent);
      if Valid() { AdmittedKeepsStore(cursors, events, p, signature); }
      events := events[p.session := if p.session in cursors then log + [e] else [e] + log];
      cursors := cursors[p.session := NewCursor(p, signature, revision)];
    }

    /** Restart verification accepts exactly the stores in which every cursor heads a whole chain and no chain is without one. */
    method RestartVerifiable() returns (verifiable: bool)
      ensures verifiable <==>
                && (forall s :: s in cursors ==>
                      Chained(s, Log(s)) && Heads(cursors[s].body, Log(s)) && cursors[s].rowHash == cursors[s].body)
                && (forall s :: Log(s) != [] ==> s in cursors)
    {
      var unread := cursors.Keys;
      while unread != {}
        invariant unread <= cursors.Keys
        invariant forall s :: s in cursors && s !in unread ==>
                    cursors[s].RowValid() && Chained(s, Log(s)) && HeadsMatch(cursors[s], Log(s))
        decreases |unread|
      {
        var s :| s in unread;
        if !cursors[s].RowValid() { return false; }
        var head := ValidateEvents(s);
        if head == None || !HeadsMatch(cursors[s], Log(s)) { return false; }
        unread := unread - {s};
      }
      verifiable := forall s :: s in events && events[s] != [] ==> s in cursors;
    }

    /** Every store that only ever consumed proofs passes restart verification. */
    lemma ValidIsRestartVerifiable()
      requires Valid()
      ensures forall s :: s in cursors ==> cursors[s].RowValid() && Chained(s, Log(s)) && HeadsMatch(cursors[s], Log(s))
      ensures forall s :: Log(s) != [] ==> s in cursors
    {
      forall s: nat
        ensures s in cursors ==> cursors[s].RowValid() && Chained(s, Log(s)) && HeadsMatch(cursors[s], Log(s))
        ensures Log(s) != [] ==> s in cursors
      {
        assert ValidSession(s);
      }
    }

    /**
      A payload is reported consumed exactly when its proof is in the session's log, under the
      identities current now.
    */
    method ConsumedPayloadVerified(p: Payload, signature: nat, current: Identity) returns (verified: bool)
      ensures verified <==>
                && p.identity == current && p.session in cursors
                && Chained(p.session, Log(p.session)) && Heads(cursors[p.session].body, Log(p.session))
                && cursors[p.session].rowHash == cursors[p.session].body && cursors[p.session].body.journal == p.journal
                && 1 <= p.sequence <= |Log(p.session)|
                && var event := Log(p.session)[p.sequence - 1].body; event.proof == ProofOf(p, signature) && event.request == p.request
      ensures ValidSession(p.session) ==>
                (verified <==> p.identity == current && exists e :: e in Log(p.session) && e.body.proof == ProofOf(p, signature))
    {
      if current != p.identity { return false; }
      if p.session !in cursors { return false; }
      var row := cursors[p.session];
      var head := ValidateEvents(p.session);
      verified := head.Some? && ReportsConsumed(row, Log(p.session), p, signature);
      if ValidSession(p.session) {
        ConsumedWhenAgreeing(row, Log(p.session), p, signature, journal);
      }
    }
  }

  lemma BreakFound(session: nat, log: seq<Event>, i: nat)
    requires i < |log| && !Continues(session, log[..i], log[i])
    ensures !Chained(session, log)
  {
    if Chained(session, log) { ChainedAt(session, log, i); }
  }
}
