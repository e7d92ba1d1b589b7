/**
  The first-live bootstrap record (DurableBinanceSpotFirstLiveBootstrapStore).  A unique index on the
  route lets one record ever exist, so the table is an optional row.

  `claimed` and `bound` keep the epochs the table overwrites in its updated_epoch column.
*/
module BootstrapStore {
  import opened FunctionalVocabulary

  const ISSUE_VALIDITY := 300.0

  datatype BootstrapState = Issued | Claimed | Active | Consumed | Failed

  datatype Bootstrap = Bootstrap(
    id: nat,
    approval: nat,
    permit: nat,
    code: nat,
    capability: Option<nat>,
    token: Option<nat>,
    session: Option<nat>,
    state: BootstrapState,
    issued: real,
    expires: real,
    claimed: real,
    activated: real,
    activeEnds: real,
    bound: real,
    consumedAt: real,
    eligible: bool)

  /** Everything else a transaction compares is one boolean each: `gates`, `identity`, `evidence`. */
  datatype Op =
    | Issue(id: nat, approval: nat, permit: nat, code: nat, capability: nat, gates: bool, now: real)
    | Claim(id: nat, capability: nat, approval: nat, permit: nat, code: nat, token: nat, gates: bool, now: real)
    | Bind(id: nat, token: nat, approval: nat, code: nat, session: nat, identity: bool, activated: real, activeEnds: real, now: real)
    | Fail(id: nat, now: real)
    | FailOrphans(now: real)
    | Consume(id: nat, session: nat, code: nat, identity: bool, safelyTerminal: bool, wiring: bool, activated: real, activeEnds: real, now: real)

  function Burned(row: Bootstrap): Bootstrap { row.(state := BootstrapState.Failed, capability := None, token := None) }

  predicate Lineage(row: Bootstrap, activated: real, now: real) {
    row.issued <= row.claimed <= activated <= now && now < row.expires
  }

  predicate BindMatches(row: Bootstrap, op: Op)
    requires op.Bind?
  {
    && row.id == op.id && row.state.Claimed? && row.approval == op.approval && row.token == Some(op.token)
    && row.code == op.code && op.identity
  }

  /** The reply a transaction gives: it can change the row and still raise. */
  datatype Effect = Effect(row: Option<Bootstrap>, raised: bool)

  function Applied(row: Option<Bootstrap>, op: Op): Effect {
    match op
    case Issue(id, approval, permit, code, capability, gates, now) =>
      if !gates || row.Some? then Effect(row, true)
      else Effect(Some(Bootstrap(id, approval, permit, code, Some(capability), None, None, BootstrapState.Issued,
                                 now, now + ISSUE_VALIDITY, 0.0, 0.0, 0.0, 0.0, 0.0, false)), false)
    case Claim(id, capability, approval, permit, code, token, gates, now) =>
      if gates && row.Some? && row.value.id == id && row.value.state.Issued? && now < row.value.expires
         && row.value.capability == Some(capability) && row.value.approval == approval && row.value.permit == permit && row.value.code == code
      then Effect(Some(row.value.(state := BootstrapState.Claimed, token := Some(token), claimed := now)), false)
      else Effect(row, true)
    case Bind(id, token, approval, code, session, identity, activated, activeEnds, now) =>
      if activeEnds - activated != PERMIT_SECONDS || row == None || !BindMatches(row.value, op) then Effect(row, true)
      else if !Lineage(row.value, activated, now) then Effect(Some(Burned(row.value)), true)
      else Effect(Some(row.value.(state := Active, session := Some(session), token := None,
                                  activated := activated, activeEnds := activeEnds, bound := now)), false)
    case Fail(id, now) =>
      if row == None || row.value.id != id then Effect(row, true)
      else if row.value.state.Issued? || row.value.state.Claimed? || row.value.state.Active? then Effect(Some(Burned(row.value)), false)
      else Effect(row, false)
    case FailOrphans(now) =>
      if row.Some? && (row.value.state.Issued? || row.value.state.Claimed?) then Effect(Some(Burned(row.value)), false)
      else Effect(row, false)
    case Consume(id, session, code, identity, safelyTerminal, wiring, activated, activeEnds, now) =>
      if now < activeEnds || !safelyTerminal || row == None then Effect(row, true)
      else if row.value.id != id || !row.value.state.Active? || row.value.activated != activated || row.value.activeEnds != activeEnds
              || row.value.session != Some(session) || row.value.code != code || !identity
      then Effect(row, true)
      else Effect(Some(row.value.(state := Consumed, capability := None, token := None, consumedAt := now,
                                  eligible := wiring)), false)
  }

  /** A claim token is stored exactly while CLAIMED, a capability only while it can still be used. */
  predicate SecretsKept(row: Bootstrap) {
    && (row.token.Some? <==> row.state.Claimed?)
    && (row.capability.Some? <==> row.state.Issued? || row.state.Claimed? || row.state.Active?)
  }

  /** issued <= claimed <= activated <= bound < expires, with exact 300 s and 7200 s windows. */
  predicate TimesKept(row: Bootstrap) {
    && row.expires == row.issued + ISSUE_VALIDITY
    && (row.state.Claimed? ==> row.claimed < row.expires)
    && (row.state.Active? || row.state.Consumed? ==>
          && row.issued <= row.claimed <= row.activated <= row.bound && row.bound < row.expires
          && row.activeEnds == row.activated + PERMIT_SECONDS && row.session.Some?)
    && (row.state.Consumed? ==> row.consumedAt >= row.activeEnds)
  }

  predicate Kept(row: Option<Bootstrap>) { row.Some? ==> SecretsKept(row.value) && TimesKept(row.value) }

  predicate Forward(from: BootstrapState, to: BootstrapState) {
    match from
    case Issued => to.Claimed? || to.Failed?
    case Claimed => to.Active? || to.Failed?
    case Active => to.Consumed? || to.Failed?
    case _ => false
  }

  /** Every transaction keeps the row, never replaces it, and moves it forward only. */
  lemma AppliedKeeps(row: Option<Bootstrap>, op: Op)
    requires Kept(row)
    ensures var later := Applied(row, op).row;
            && Kept(later)
            && (row.Some? ==>
                  && later.Some? && later.value.id == row.value.id
                  && (later == row || Forward(row.value.state, later.value.state)))
  {
    match op
    case Bind(_, _, _, _, _, _, activated, activeEnds, _) =>
      if row.Some? && BindMatches(row.value, op) && Lineage(row.value, activated, op.now) {
        assert activeEnds - activated == PERMIT_SECONDS ==> activeEnds == activated + PERMIT_SECONDS;
      }
    case _ =>
  }

  /** A bind with a broken time lineage is refused and burns the record: it can never be retried. */
  lemma BrokenLineageBurns(row: Bootstrap, op: Op)
    requires op.Bind? && BindMatches(row, op) && op.activeEnds - op.activated == PERMIT_SECONDS
    ensures Applied(Some(row), op).raised <==> !Lineage(row, op.activated, op.now)
    ensures Applied(Some(row), op).raised <==> Applied(Some(row), op).row == Some(Burned(row))
  {}

  // ---- Who moves the record ----------------------------------------------------------------------------

  /**
    Who moves the record, and out of which state: a claim within 300 s of the issue by whoever holds
    the capability for exactly this approval, permit and code; a bind by whoever holds the claim token,
    in an unbroken lineage; a consumption by its own session after the two hours.  Each of them moves it
    whenever that holds.
  */
  lemma MovesAreRightful(row: Bootstrap, op: Op)
    requires Kept(Some(row))
    ensures var later := Applied(Some(row), op).row.value;
            && (later.state.Claimed? && !row.state.Claimed? <==> op.Claim? && op.gates && HoldsCapability(row, op))
            && (later.state.Active? && !row.state.Active? <==> op.Bind? && HoldsToken(row, op) && InTime(row, op))
            && (later.state.Consumed? && !row.state.Consumed? <==> op.Consume? && op.safelyTerminal && EndsSession(row, op))
            && (later.state.Failed? && !row.state.Failed? <==>
                  || (op.Fail? && op.id == row.id && !row.state.Consumed? && !row.state.Failed?)
                  || (op.FailOrphans? && (row.state.Issued? || row.state.Claimed?))
                  || (op.Bind? && HoldsToken(row, op) && !InTime(row, op)))
  {}

  predicate HoldsCapability(row: Bootstrap, op: Op)
    requires op.Claim?
  {
    && row.state.Issued? && (op.id, op.approval, op.permit, op.code) == (row.id, row.approval, row.permit, row.code)
    && row.capability == Some(op.capability) && op.now < row.issued + 300.0
  }

  predicate HoldsToken(row: Bootstrap, op: Op)
    requires op.Bind?
  {
    && row.state.Claimed? && (op.id, op.approval, op.code) == (row.id, row.approval, row.code)
    && row.token == Some(op.token) && op.identity && op.activeEnds == op.activated + 7200.0
  }

  predicate InTime(row: Bootstrap, op: Op)
    requires op.Bind?
  {
    row.issued <= row.claimed <= op.activated <= op.now < row.issued + 300.0
  }

  predicate EndsSession(row: Bootstrap, op: Op)
    requires op.Consume?
  {
    && row.state.Active? && (op.id, op.code) == (row.id, row.code) && row.session == Some(op.session) && op.identity
    && op.activated == row.activated && op.activeEnds == row.activeEnds && op.now >= row.activated + 7200.0
  }

  /** What a move leaves behind: the token it was made with, the session it was bound to, the wiring it was consumed with. */
  lemma MovesLeaveBehind(row: Bootstrap, op: Op)
    requires Kept(Some(row))
    ensures var later := Applied(Some(row), op).row.value;
            && (later.state.Claimed? && !row.state.Claimed? ==> later.token == Some(op.token) && later.claimed == op.now)
            && (later.state.Active? && !row.state.Active? ==>
                  later.session == Some(op.session) && later.activated == op.activated && later.bound == op.now)
            && (later.state.Consumed? && !row.state.Consumed? ==> (later.eligible <==> op.wiring) && later.consumedAt == op.now)
            && (later.eligible && !row.eligible ==> op.Consume? && op.wiring)
  {}

  // ---- Runs ----------------------------------------------------------------------------------------------

  function Reached(row: Option<Bootstrap>, ops: seq<Op>): Option<Bootstrap>
    decreases |ops|
  {
    if ops == [] then row else Reached(Applied(row, ops[0]).row, ops[1..])
  }

  /** How many issue transactions succeed along the way. */
  function Issues(row: Option<Bootstrap>, ops: seq<Op>): nat
    decreases |ops|
  {
    if ops == [] then 0 else
      (if ops[0].Issue? && !Applied(row, ops[0]).raised then 1 else 0) + Issues(Applied(row, ops[0]).row, ops[1..])
  }

  lemma {:induction false} NeverIssuedAgain(row: Option<Bootstrap>, ops: seq<Op>)
    requires Kept(row) && row.Some?
    ensures Issues(row, ops) == 0
    ensures Reached(row, ops).Some? && Reached(row, ops).value.id == row.value.id
    ensures Kept(Reached(row, ops))
    ensures row.value.state.Consumed? || row.value.state.Failed? ==> Reached(row, ops) == row
    decreases |ops|
  {
    if ops != [] {
      AppliedKeeps(row, ops[0]);
      NeverIssuedAgain(Applied(row, ops[0]).row, ops[1..]);
    }
  }

  /**
    Whatever is tried on a database, at most one bootstrap is ever issued on it, and the record it
    holds has secrets and times in order -- so a CONSUMED one lived at least 7200 s after activation.
  */
  lemma {:induction false} OneBootstrapEver(ops: seq<Op>)
    ensures Issues(None, ops) <= 1 && Kept(Reached(None, ops))
    ensures Reached(None, ops).Some? && Reached(None, ops).value.state.Consumed? ==>
              Reached(None, ops).value.consumedAt - Reached(None, ops).value.issued >= 7200.0
    decreases |ops|
  {
    if ops != [] {
      AppliedKeeps(None, ops[0]);
      if Applied(None, ops[0]).row == None {
        OneBootstrapEver(ops[1..]);
      } else {
        NeverIssuedAgain(Applied(None, ops[0]).row, ops[1..]);
      }
    }
  }

  // ---- The store -------------------------------------------------------------------------------------------

  /**
    Each method is one transaction, tied to Applied; what the transactions promise is proved about
    Applied: AppliedKeeps and BrokenLineageBurns for one of them, OneBootstrapEver for runs.
  */
  class FirstLiveBootstrapStore {
    var row: Option<Bootstrap>

    constructor ()
      ensures row == None
    {
      row := None;
    }

    method IssueBootstrap(id: nat, approval: nat, permit: nat, code: nat, capability: nat, gates: bool, now: real)
      returns (raised: bool)
      modifies this
      ensures Effect(row, raised) == Applied(old(row), Issue(id, approval, permit, code, capability, gates, now))
    {
      if !gates { return true; }
      if row.Some? { return true; }
      row := Some(Bootstrap(id, approval, permit, code, Some(capability), None, None, BootstrapState.Issued,
                            now, now + ISSUE_VALIDITY, 0.0, 0.0, 0.0, 0.0, 0.0, false));
      return false;
    }

    method ClaimBootstrap(id: nat, capability: nat, approval: nat, permit: nat, code: nat, token: nat, gates: bool, now: real)
      returns (raised: bool)
      modifies this
      ensures Effect(row, raised) == Applied(old(row), Claim(id, capability, approval, permit, code, token, gates, now))
    {
      if !gates || row == None { return true; }
      var r := row.value;
      if r.id != id || !r.state.Issued? || now >= r.expires || r.capability != Some(capability)
         || r.approval != approval || r.permit != permit || r.code != code
      {
        return true;
      }
      row := Some(r.(state := BootstrapState.Claimed, token := Some(token), claimed := now));
      return false;
    }

    /** Bind the claimed capability to its session, or burn it when its time lineage is broken. */
    method BindBootstrap(
      id: nat, token: nat, approval: nat, code: nat, session: nat, identity: bool, activated: real, activeEnds: real, now: real)
      returns (raised: bool)
      modifies this
      ensures Effect(row, raised) ==
                Applied(old(row), Bind(id, token, approval, code, session, identity, activated, activeEnds, now))
    {
      if activeEnds - activated != PERMIT_SECONDS { return true; }
      if row == None { return true; }
      var r := row.value;
      if r.id != id || !r.state.Claimed? || r.approval != approval || r.token != Some(token) || !identity || r.code != code {
        return true;
      }
      if !(r.issued <= r.claimed <= activated <= now) || now >= r.expires {
        row := Some(Burned(r));
        return true;
      }
      row := Some(r.(state := Active, session := Some(session), token := None,
                     activated := activated, activeEnds := activeEnds, bound := now));
      return false;
    }

    method FailBootstrap(id: nat, now: real) returns (raised: bool)
      modifies this
      ensures Effect(row, raised) == Applied(old(row), Fail(id, now))
    {
      if row == None || row.value.id != id { return true; }
      if !row.value.state.Consumed? && !row.value.state.Failed? { row := Some(Burned(row.value)); }
      return false;
    }

    method FailOrphansAfterProcessLoss(now: real) returns (burned: bool)
      modifies this
      ensures row == Applied(old(row), FailOrphans(now)).row
      ensures burned <==> row != old(row)
    {
      if row.Some? && (row.value.state.Issued? || row.value.state.Claimed?) {
        row := Some(Burned(row.value));
        return true;
      }
      return false;
    }

    method ConsumeTerminal(
      id: nat, session: nat, code: nat, identity: bool, safelyTerminal: bool, wiring: bool, activated: real, activeEnds: real, now: real)
      returns (raised: bool)
      modifies this
      ensures Effect(row, raised) ==
                Applied(old(row), Consume(id, session, code, identity, safelyTerminal, wiring, activated, activeEnds, now))
    {
      if now < activeEnds { return true; }
      if !safelyTerminal { return true; }
      if row == None { return true; }
      var r := row.value;
      if r.id != id || !r.state.Active? || r.activated != activated || r.activeEnds != activeEnds { return true; }
      if r.session != Some(session) || !identity || r.code != code { return true; }
      row := Some(r.(state := Consumed, capability := None, token := None, consumedAt := now, eligible := wiring));
      return false;
    }
  }
}
