/**
  The one-shot approval lifecycle (DurableBinanceSpotApprovedPermitStore).

  `Applied` gives the effect of each transaction on the table, None where it raises; the class
  performs them.  Signatures, attestations and permit parsing are the booleans `exact` and `fresh`;
  a token's hash is the token, the empty hash and empty session are None.
*/
module ApprovalStore {
  import opened FunctionalVocabulary

  const ISSUED_VALIDITY := 300.0
  const AUDIT_LEASE := 60.0

  datatype ApprovalState = Issued | Approved | Claimed | Active | Consumed | Failed
  {
    predicate Open() { Issued? || Approved? || Claimed? || Active? }
  }

  datatype Approval = Approval(
    permit: nat,
    permitHash: nat,
    approval: nat,
    state: ApprovalState,
    token: Option<nat>,
    session: Option<nat>,
    updated: real)

  /** A live control or session row, as the startup audit reads it. */
  datatype Authority = Authority(permit: nat, permitHash: nat)

  datatype Op =
    | Issue(permit: nat, permitHash: nat, approval: nat, exact: bool, now: real)
    | Approve(approval: nat, exact: bool, now: real)
    | RetireIssued(approval: nat, now: real)
    | FailApproved(approval: nat, now: real)
    | Claim(permit: nat, permitHash: nat, token: nat, resealed: Option<(nat, nat)>, exact: bool, now: real)
    | Bind(permit: nat, token: nat, session: nat, now: real)
    | FailClaim(permit: nat, token: nat, now: real)
    | FailStart(permit: nat, session: nat, now: real)
    | FailLostClaim(permit: nat, permitHash: nat, now: real)
    | BindLostClaim(permit: nat, permitHash: nat, session: nat, attested: bool, now: real)
    | Audit(now: real, lease: real, absenceAttested: bool, live: seq<Authority>)
    | Consume(session: nat, now: real)

  predicate NoneOpen(rows: seq<Approval>) { forall i :: 0 <= i < |rows| ==> !rows[i].state.Open() }

  predicate Unused(rows: seq<Approval>, permit: nat, permitHash: nat, approval: nat) {
    forall i :: 0 <= i < |rows| ==> rows[i].permit != permit && rows[i].permitHash != permitHash && rows[i].approval != approval
  }

  /** What a transaction looks a row up by. */
  datatype Key = ByPermit(permit: nat) | ByApproval(approval: nat) | ByActiveSession(session: nat)

  predicate Has(row: Approval, key: Key) {
    match key
    case ByPermit(permit) => row.permit == permit
    case ByApproval(approval) => row.approval == approval
    case ByActiveSession(session) => row.state.Active? && row.session == Some(session)
  }

  /** The row with this key, or -1. */
  function At(rows: seq<Approval>, key: Key): (at: int)
    ensures -1 <= at < |rows|
    ensures at >= 0 ==> Has(rows[at], key)
    ensures at < 0 ==> forall i :: 0 <= i < |rows| ==> !Has(rows[i], key)
  {
    if rows == [] then -1
    else if Has(rows[|rows| - 1], key) then |rows| - 1
    else At(rows[..|rows| - 1], key)
  }

  /** The first row that carries a session, as an unordered SELECT returns it. */
  function FirstOfSession(rows: seq<Approval>, session: nat): Option<Approval> {
    if rows == [] then None
    else if rows[0].session == Some(session) then Some(rows[0])
    else FirstOfSession(rows[1..], session)
  }

  // ---- The startup audit -------------------------------------------------------------------------------

  datatype AuditVerdict = NotAudited | Pending | Matched | Orphan

  function Audited(row: Approval, now: real, lease: real, absenceAttested: bool, live: seq<Authority>): AuditVerdict {
    if !(row.state.Approved? || row.state.Claimed?) then NotAudited
    else if !absenceAttested && now - row.updated < lease then Pending
    else if Authority(row.permit, row.permitHash) in live then Matched
    else Orphan
  }

  function Fail(row: Approval, now: real): Approval { row.(state := ApprovalState.Failed, token := None, updated := now) }

  /** One audited row; None when the orphan's compare-and-set fails. */
  function AuditRow(row: Approval, now: real, lease: real, absenceAttested: bool, live: seq<Authority>): Option<Approval> {
    if !Audited(row, now, lease, absenceAttested, live).Orphan? then Some(row)
    else if row.session == None then Some(Fail(row, now))
    else None
  }

  function AuditRows(rows: seq<Approval>, now: real, lease: real, absenceAttested: bool, live: seq<Authority>): Option<seq<Approval>> {
    if rows == [] then Some([]) else
      var n := |rows| - 1;
      match (AuditRows(rows[..n], now, lease, absenceAttested, live), AuditRow(rows[n], now, lease, absenceAttested, live))
      case (Some(before), Some(last)) => Some(before + [last])
      case _ => None
  }

  // ---- Every transaction ---------------------------------------------------------------------------------

  function Applied(rows: seq<Approval>, op: Op): Option<seq<Approval>> {
    match op
    case Issue(permit, permitHash, approval, exact, now) =>
      if exact && NoneOpen(rows) && Unused(rows, permit, permitHash, approval)
      then Some(rows + [Approval(permit, permitHash, approval, Issued, None, None, now)]) else None
    case Approve(approval, exact, now) =>
      var i := At(rows, ByApproval(approval));
      if i >= 0 && rows[i].state.Issued? && exact && 0.0 <= now - rows[i].updated <= ISSUED_VALIDITY
      then Some(rows[i := rows[i].(state := Approved, updated := now)]) else None
    case RetireIssued(approval, now) =>
      var i := At(rows, ByApproval(approval));
      if i >= 0 && rows[i].state.Issued? then Some(rows[i := rows[i].(state := ApprovalState.Failed, updated := now)]) else None
    case FailApproved(approval, now) =>
      var i := At(rows, ByApproval(approval));
      if i < 0 then None
      else if rows[i].state.Approved? then Some(rows[i := rows[i].(state := ApprovalState.Failed, updated := now)])
      else Some(rows)
    case Claim(permit, permitHash, token, resealed, exact, now) =>
      var i := At(rows, ByPermit(permit));
      if i < 0 || !rows[i].state.Approved? || rows[i].permitHash != permitHash || !exact then None
      else
        var key := if resealed.Some? then resealed.value else (permit, permitHash);
        if exists j :: 0 <= j < |rows| && j != i && (rows[j].permit == key.0 || rows[j].permitHash == key.1) then None
        else Some(rows[i := rows[i].(permit := key.0, permitHash := key.1, state := ApprovalState.Claimed, token := Some(token), updated := now)])
    case Bind(permit, token, session, now) =>
      var i := At(rows, ByPermit(permit));
      if i >= 0 && rows[i].state.Claimed? && rows[i].token == Some(token) && rows[i].session == None
      then Some(rows[i := rows[i].(state := Active, session := Some(session), token := None, updated := now)]) else None
    case FailClaim(permit, token, now) =>
      var i := At(rows, ByPermit(permit));
      if i >= 0 && rows[i].state.Claimed? && rows[i].token == Some(token) then Some(rows[i := Fail(rows[i], now)]) else None
    case FailStart(permit, session, now) =>
      var i := At(rows, ByPermit(permit));
      if i >= 0 && (rows[i].state.Claimed? || (rows[i].state.Active? && rows[i].session == Some(session)))
      then Some(rows[i := Fail(rows[i], now).(session := Some(session))]) else None
    case FailLostClaim(permit, permitHash, now) =>
      var i := At(rows, ByPermit(permit));
      if i < 0 then None
      else if rows[i].permitHash == permitHash && rows[i].state.Claimed? && rows[i].session == None
      then Some(rows[i := Fail(rows[i], now)]) else Some(rows)
    case BindLostClaim(permit, permitHash, session, attested, now) =>
      var i := At(rows, ByPermit(permit));
      if attested && i >= 0 && rows[i].permitHash == permitHash && rows[i].state.Claimed? && rows[i].session == None
      then Some(rows[i := rows[i].(state := Active, session := Some(session), token := None, updated := now)]) else None
    case Audit(now, lease, absenceAttested, live) =>
      if lease <= 0.0 || lease > AUDIT_LEASE then None else AuditRows(rows, now, lease, absenceAttested, live)
    case Consume(session, now) =>
      var first := FirstOfSession(rows, session);
      if first.Some? && first.value.state.Consumed? then Some(rows)
      else
        var i := At(rows, ByActiveSession(session));
        if i >= 0 then Some(rows[i := rows[i].(state := Consumed, updated := now)]) else None
  }

  function After(rows: seq<Approval>, op: Op): seq<Approval> {
    if Applied(rows, op).Some? then Applied(rows, op).value else rows
  }

  // ---- What every table keeps ------------------------------------------------------------------------------

  ghost predicate Unique(rows: seq<Approval>) {
    forall i, j :: 0 <= i < j < |rows| ==>
      rows[i].permit != rows[j].permit && rows[i].permitHash != rows[j].permitHash && rows[i].approval != rows[j].approval
  }

  ghost predicate OneOpen(rows: seq<Approval>) {
    forall i, j :: 0 <= i < j < |rows| ==> !(rows[i].state.Open() && rows[j].state.Open())
  }

  /** A token is stored exactly while CLAIMED; a session only once ACTIVE, or in a failed start. */
  predicate RowKept(row: Approval) {
    && (row.token.Some? <==> row.state.Claimed?)
    && (row.state.Issued? || row.state.Approved? || row.state.Claimed? ==> row.session == None)
    && (row.state.Active? || row.state.Consumed? ==> row.session.Some?)
  }

  ghost predicate Kept(rows: seq<Approval>) {
    && Unique(rows) && OneOpen(rows)
    && forall i :: 0 <= i < |rows| ==> RowKept(rows[i])
  }

  /** The only moves a row can make. */
  predicate Forward(from: ApprovalState, to: ApprovalState) {
    match from
    case Issued => to.Approved? || to.Failed?
    case Approved => to.Claimed? || to.Failed?
    case Claimed => to.Active? || to.Failed?
    case Active => to.Consumed? || to.Failed?
    case _ => false
  }

  predicate RowAdvances(a: Approval, b: Approval) {
    && b.approval == a.approval
    && (b == a || Forward(a.state, b.state))
  }

  ghost predicate Advances(rows: seq<Approval>, later: seq<Approval>) {
    && |rows| <= |later|
    && (forall i :: 0 <= i < |rows| ==> RowAdvances(rows[i], later[i]))
  }

  lemma ReplaceKept(rows: seq<Approval>, i: nat, row: Approval)
    requires Kept(rows) && i < |rows| && RowKept(row)
    requires rows[i].state.Open() && row.approval == rows[i].approval
    requires forall j :: 0 <= j < |rows| && j != i ==> rows[j].permit != row.permit && rows[j].permitHash != row.permitHash
    ensures Kept(rows[i := row])
  {
  }

  lemma {:induction false} AuditKeeps(rows: seq<Approval>, now: real, lease: real, absenceAttested: bool, live: seq<Authority>)
    requires forall i :: 0 <= i < |rows| ==> RowKept(rows[i])
    ensures var audited := AuditRows(rows, now, lease, absenceAttested, live);
            && audited.Some? && |audited.value| == |rows|
            && forall i :: 0 <= i < |rows| ==>
                 audited.value[i] == (if Audited(rows[i], now, lease, absenceAttested, live).Orphan? then Fail(rows[i], now) else rows[i])
  {
    if rows != [] {
      var n := |rows| - 1;
      AuditKeeps(rows[..n], now, lease, absenceAttested, live);
      var before := AuditRows(rows[..n], now, lease, absenceAttested, live).value;
      assert forall i :: 0 <= i < n ==> rows[..n][i] == rows[i];
      assert RowKept(rows[n]);
    }
  }

  /** The orphan audit can never be stopped by its own compare-and-set. */
  lemma AuditNeverRaises(rows: seq<Approval>, now: real, lease: real, absenceAttested: bool, live: seq<Authority>)
    requires Kept(rows) && 0.0 < lease <= AUDIT_LEASE
    ensures Applied(rows, Audit(now, lease, absenceAttested, live)).Some?
  {
    AuditKeeps(rows, now, lease, absenceAttested, live);
  }

  /** Every transaction keeps the table, and moves rows forward only. */
  lemma AppliedKeeps(rows: seq<Approval>, op: Op)
    requires Kept(rows)
    ensures Kept(After(rows, op)) && Advances(rows, After(rows, op))
  {
    if op.Audit? {
      AuditedKeeps(rows, op);
    } else if op.Issue? {
      IssueKeeps(rows, op);
    } else {
      UpdateKeeps(rows, op);
    }
  }

  lemma AuditedKeeps(rows: seq<Approval>, op: Op)
    requires Kept(rows) && op.Audit?
    ensures Kept(After(rows, op)) && Advances(rows, After(rows, op))
  {
    AuditKeeps(rows, op.now, op.lease, op.absenceAttested, op.live);
    var audited := AuditRows(rows, op.now, op.lease, op.absenceAttested, op.live).value;
    assert After(rows, op) == audited || After(rows, op) == rows;
    FailedKept(rows, audited, op.now);
  }

  predicate FailedOf(row: Approval, later: Approval, now: real) {
    (row.state.Approved? || row.state.Claimed?) && later == Fail(row, now)
  }

  /** Failing some APPROVED or CLAIMED rows. */
  lemma FailedKept(rows: seq<Approval>, later: seq<Approval>, now: real)
    requires Kept(rows) && |later| == |rows|
    requires forall i :: 0 <= i < |rows| ==> (later[i] == rows[i] || FailedOf(rows[i], later[i], now))
    ensures Kept(later) && Advances(rows, later)
  {}

  lemma IssueKeeps(rows: seq<Approval>, op: Op)
    requires Kept(rows) && op.Issue?
    ensures Kept(After(rows, op)) && Advances(rows, After(rows, op))
  {}

  /** The transactions that update at most one open row. */
  lemma UpdateKeeps(rows: seq<Approval>, op: Op)
    requires Kept(rows) && !op.Audit? && !op.Issue?
    ensures Kept(After(rows, op)) && Advances(rows, After(rows, op))
  {
    if Applied(rows, op).Some? && After(rows, op) != rows {
      var i := if op.Approve? || op.RetireIssued? || op.FailApproved? then At(rows, ByApproval(op.approval))
               else if op.Consume? then At(rows, ByActiveSession(op.session)) else At(rows, ByPermit(op.permit));
      assert After(rows, op) == rows[i := After(rows, op)[i]];
      ReplaceKept(rows, i, After(rows, op)[i]);
    }
  }

  // ---- Who moves a row -----------------------------------------------------------------------------------------

  /** The rows a startup audit looks at that are old enough, or whose owner is known to be gone. */
  predicate Abandoned(row: Approval, now: real, lease: real, absenceAttested: bool) {
    (row.state.Approved? || row.state.Claimed?) && (absenceAttested || now - row.updated >= lease)
  }

  /** Some live authority stands under both the permit and its hash. */
  predicate Backed(row: Approval, live: seq<Authority>) {
    exists a :: a in live && a.permit == row.permit && a.permitHash == row.permitHash
  }

  lemma VerdictsMean(row: Approval, now: real, lease: real, absenceAttested: bool, live: seq<Authority>)
    ensures var verdict := Audited(row, now, lease, absenceAttested, live);
            && (verdict.Orphan? <==> Abandoned(row, now, lease, absenceAttested) && !Backed(row, live))
            && (verdict.Matched? <==> Abandoned(row, now, lease, absenceAttested) && Backed(row, live))
            && (verdict.Pending? <==>
                  (row.state.Approved? || row.state.Claimed?) && !absenceAttested && now - row.updated < lease)
  {
    assert Authority(row.permit, row.permitHash) in live ==> Backed(row, live);
    if Backed(row, live) {
      var a :| a in live && a.permit == row.permit && a.permitHash == row.permitHash;
      assert a == Authority(row.permit, row.permitHash);
    }
  }

  /** An audit fails exactly the abandoned rows no live authority stands behind, and touches no other row. */
  lemma AuditFailsOrphans(rows: seq<Approval>, now: real, lease: real, absenceAttested: bool, live: seq<Authority>, i: nat)
    requires Kept(rows) && 0.0 < lease <= 60.0 && i < |rows|
    ensures var later := After(rows, Audit(now, lease, absenceAttested, live));
            && |later| == |rows|
            && later[i] == (if Abandoned(rows[i], now, lease, absenceAttested) && !Backed(rows[i], live)
                            then rows[i].(state := ApprovalState.Failed, token := None, updated := now) else rows[i])
  {
    AuditKeeps(rows, now, lease, absenceAttested, live);
    VerdictsMean(rows[i], now, lease, absenceAttested, live);
  }

  /**
    Who moves a row, and out of which state.  An approval needs its exact permit within 300 s of the
    issue, a claim its permit and hash, a bind the token of the claim or a startup attestation, a
    consumption the session; a failure comes from whoever may revoke that state, or from the audit.
  */
  lemma MovesAreRightful(rows: seq<Approval>, op: Op, i: nat)
    requires Kept(rows) && i < |rows|
    ensures i < |After(rows, op)| && (After(rows, op)[i] != rows[i] ==> MovedRightfully(rows[i], After(rows, op)[i], op))
  {
    AppliedKeeps(rows, op);
    if op.Audit? && 0.0 < op.lease <= 60.0 {
      AuditFailsOrphans(rows, op.now, op.lease, op.absenceAttested, op.live, i);
    }
  }

  predicate MovedRightfully(a: Approval, b: Approval, op: Op) {
    match op
    case Approve(approval, exact, now) =>
      a.state.Issued? && b.state.Approved? && a.approval == approval && exact && a.updated <= now <= a.updated + 300.0
    case Claim(permit, permitHash, token, resealed, exact, now) =>
      && a.state.Approved? && b.state.Claimed? && (a.permit, a.permitHash) == (permit, permitHash) && exact
      && b.token == Some(token) && (b.permit, b.permitHash) == (if resealed == None then (permit, permitHash) else resealed.value)
    case Bind(permit, token, session, now) =>
      a.state.Claimed? && b.state.Active? && a.permit == permit && a.token == Some(token) && b.session == Some(session)
    case BindLostClaim(permit, permitHash, session, attested, now) =>
      && a.state.Claimed? && b.state.Active? && (a.permit, a.permitHash) == (permit, permitHash) && attested
      && b.session == Some(session)
    case Consume(session, now) => a.state.Active? && b.state.Consumed? && a.session == Some(session)
    case RetireIssued(approval, now) => a.state.Issued? && b.state.Failed? && a.approval == approval
    case FailApproved(approval, now) => a.state.Approved? && b.state.Failed? && a.approval == approval
    case FailClaim(permit, token, now) => a.state.Claimed? && b.state.Failed? && a.permit == permit && a.token == Some(token)
    case FailStart(permit, session, now) =>
      b.state.Failed? && a.permit == permit && (a.state.Claimed? || (a.state.Active? && a.session == Some(session)))
    case FailLostClaim(permit, permitHash, now) =>
      a.state.Claimed? && b.state.Failed? && (a.permit, a.permitHash) == (permit, permitHash)
    case Audit(now, lease, absenceAttested, live) =>
      b.state.Failed? && Abandoned(a, now, lease, absenceAttested) && !Backed(a, live)
    case Issue(_, _, _, _, _) => false
  }

  /** Whoever may move a row does: the same conditions suffice, on a table where the row can be found. */
  lemma RightfulMovesSucceed(rows: seq<Approval>, op: Op, i: nat)
    requires Kept(rows) && i < |rows| && Entitled(rows, i, op)
    ensures Applied(rows, op).Some? && i < |After(rows, op)| && After(rows, op)[i].state == Destination(op)
  {
    var key := if op.Approve? || op.RetireIssued? || op.FailApproved? then ByApproval(op.approval)
               else if op.Consume? then ByActiveSession(op.session) else ByPermit(op.permit);
    OnlyOneHas(rows, key, i);
    if op.Consume? { NotYetConsumed(rows, op.session, i); }
  }

  predicate Entitled(rows: seq<Approval>, i: nat, op: Op)
    requires i < |rows|
  {
    var a := rows[i];
    match op
    case Approve(approval, exact, now) => a.state.Issued? && a.approval == approval && exact && a.updated <= now <= a.updated + 300.0
    case Claim(permit, permitHash, _, resealed, exact, _) =>
      && a.state.Approved? && (a.permit, a.permitHash) == (permit, permitHash) && exact
      && (resealed.Some? ==> forall j :: 0 <= j < |rows| ==> rows[j].permit != resealed.value.0 && rows[j].permitHash != resealed.value.1)
    case Bind(permit, token, _, _) => a.state.Claimed? && a.permit == permit && a.token == Some(token)
    case BindLostClaim(permit, permitHash, _, attested, _) => a.state.Claimed? && (a.permit, a.permitHash) == (permit, permitHash) && attested
    case Consume(session, _) =>
      a.state.Active? && a.session == Some(session) && (forall j :: 0 <= j < |rows| && j != i ==> rows[j].session != Some(session))
    case RetireIssued(approval, _) => a.state.Issued? && a.approval == approval
    case FailApproved(approval, _) => a.state.Approved? && a.approval == approval
    case FailClaim(permit, token, _) => a.state.Claimed? && a.permit == permit && a.token == Some(token)
    case FailStart(permit, session, _) => a.permit == permit && (a.state.Claimed? || (a.state.Active? && a.session == Some(session)))
    case FailLostClaim(permit, permitHash, _) => a.state.Claimed? && (a.permit, a.permitHash) == (permit, permitHash)
    case _ => false
  }

  function Destination(op: Op): ApprovalState
    requires !op.Issue? && !op.Audit?
  {
    match op
    case Approve(_, _, _) => Approved
    case Claim(_, _, _, _, _, _) => ApprovalState.Claimed
    case Bind(_, _, _, _) => Active
    case BindLostClaim(_, _, _, _, _) => Active
    case Consume(_, _) => Consumed
    case _ => ApprovalState.Failed
  }

  lemma OnlyOneHas(rows: seq<Approval>, key: Key, i: nat)
    requires Kept(rows) && i < |rows| && Has(rows[i], key)
    ensures At(rows, key) == i
  {}

  lemma {:induction false} NotYetConsumed(rows: seq<Approval>, session: nat, i: nat)
    requires i < |rows| && rows[i].session == Some(session)
    requires forall j :: 0 <= j < |rows| && j != i ==> rows[j].session != Some(session)
    ensures FirstOfSession(rows, session) == Some(rows[i])
    decreases |rows|
  {
    if i > 0 { NotYetConsumed(rows[1..], session, i - 1); }
  }

  // ---- Runs ----------------------------------------------------------------------------------------------------

  function Reached(rows: seq<Approval>, ops: seq<Op>): seq<Approval>
    decreases |ops|
  {
    if ops == [] then rows else Reached(After(rows, ops[0]), ops[1..])
  }

  /** On every run from an empty table at most one approval is open and the startup audit succeeds. */
  lemma {:induction false} OneShotAlways(rows: seq<Approval>, ops: seq<Op>)
    requires Kept(rows)
    ensures Kept(Reached(rows, ops))
    decreases |ops|
  {
    if ops != [] {
      AppliedKeeps(rows, ops[0]);
      OneShotAlways(After(rows, ops[0]), ops[1..]);
    }
  }

  /** CONSUMED and FAILED are final, whatever is tried later. */
  lemma {:induction false} ClosedStaysClosed(rows: seq<Approval>, ops: seq<Op>, i: nat)
    requires Kept(rows) && i < |rows| && !rows[i].state.Open()
    ensures i < |Reached(rows, ops)| && Reached(rows, ops)[i] == rows[i]
    decreases |ops|
  {
    if ops != [] {
      AppliedKeeps(rows, ops[0]);
      ClosedStaysClosed(After(rows, ops[0]), ops[1..], i);
    }
  }

  function Rank(state: ApprovalState): nat {
    match state case Issued => 0 case Approved => 1 case Claimed => 2 case Active => 3 case _ => 4
  }

  /** An approval is never issued, approved or claimed twice: its rank never goes down, and never stays while it changes state. */
  lemma {:induction false} NeverBackwards(rows: seq<Approval>, ops: seq<Op>, i: nat)
    requires Kept(rows) && i < |rows|
    ensures var end := Reached(rows, ops);
            && i < |end| && end[i].approval == rows[i].approval
            && Rank(rows[i].state) <= Rank(end[i].state)
            && (Rank(rows[i].state) == Rank(end[i].state) ==> end[i] == rows[i])
    decreases |ops|
  {
    if ops != [] {
      AppliedKeeps(rows, ops[0]);
      NeverBackwards(After(rows, ops[0]), ops[1..], i);
    }
  }

  // ---- The store -----------------------------------------------------------------------------------------------

  /**
    Each method is one transaction, tied to Applied; what the transactions promise is proved about
    Applied: AppliedKeeps for one of them, OneShotAlways, ClosedStaysClosed and NeverBackwards for runs.
  */
  class ApprovedPermitStore {
    var rows: seq<Approval>

    constructor ()
      ensures rows == [] && Kept(rows)
    {
      rows := [];
    }

    method IssueCandidate(permit: nat, permitHash: nat, approval: nat, exact: bool, now: real) returns (issued: bool)
      modifies this
      ensures issued <==> Applied(old(rows), Issue(permit, permitHash, approval, exact, now)).Some?
      ensures rows == After(old(rows), Issue(permit, permitHash, approval, exact, now))
    {
      if !exact { return false; }
      var i := 0;
      while i < |rows|
        invariant 0 <= i <= |rows|
        invariant NoneOpen(rows[..i]) && Unused(rows[..i], permit, permitHash, approval)
      {
        if rows[i].state.Open() { return false; }
        if rows[i].permit == permit || rows[i].permitHash == permitHash || rows[i].approval == approval { return false; }
        assert rows[..i + 1] == rows[..i] + [rows[i]];
        i := i + 1;
      }
      assert rows[..i] == rows;
      rows := rows + [Approval(permit, permitHash, approval, Issued, None, None, now)];
      return true;
    }

    method ApproveIssuedCandidate(approval: nat, exact: bool, now: real) returns (approved: bool)
      modifies this
      ensures approved <==> Applied(old(rows), Approve(approval, exact, now)).Some?
      ensures rows == After(old(rows), Approve(approval, exact, now))
    {
      var i := At(rows, ByApproval(approval));
      if i < 0 || !rows[i].state.Issued? { return false; }
      if !exact || now < rows[i].updated || now - rows[i].updated > ISSUED_VALIDITY { return false; }
      rows := rows[i := rows[i].(state := Approved, updated := now)];
      return true;
    }

    method RetireIssuedCandidate(approval: nat, now: real) returns (retired: bool)
      modifies this
      ensures retired <==> Applied(old(rows), RetireIssued(approval, now)).Some?
      ensures rows == After(old(rows), RetireIssued(approval, now))
    {
      var i := At(rows, ByApproval(approval));
      if i < 0 || !rows[i].state.Issued? { return false; }
      rows := rows[i := rows[i].(state := ApprovalState.Failed, updated := now)];
      return true;
    }

    method FailApprovedCandidate(approval: nat, now: real) returns (found: bool)
      modifies this
      ensures found <==> Applied(old(rows), FailApproved(approval, now)).Some?
      ensures rows == After(old(rows), FailApproved(approval, now))
    {
      var i := At(rows, ByApproval(approval));
      if i < 0 { return false; }
      if rows[i].state.Approved? {
        rows := rows[i := rows[i].(state := ApprovalState.Failed, updated := now)];
      }
      return true;
    }

    /** Claim an approved permit, resealing it under a new identity when an issuer is given. */
    method ClaimApproved(permit: nat, permitHash: nat, token: nat, resealed: Option<(nat, nat)>, exact: bool, now: real)
      returns (claimed: bool)
      modifies this
      ensures claimed <==> Applied(old(rows), Claim(permit, permitHash, token, resealed, exact, now)).Some?
      ensures rows == After(old(rows), Claim(permit, permitHash, token, resealed, exact, now))
    {
      var i := At(rows, ByPermit(permit));
      if i < 0 || !rows[i].state.Approved? || rows[i].permitHash != permitHash || !exact { return false; }
      var key := (permit, permitHash);
      if resealed.Some? { key := resealed.value; }
      if exists j :: 0 <= j < |rows| && j != i && (rows[j].permit == key.0 || rows[j].permitHash == key.1) { return false; }
      rows := rows[i := rows[i].(permit := key.0, permitHash := key.1, state := ApprovalState.Claimed, token := Some(token), updated := now)];
      return true;
    }

    method BindSession(permit: nat, token: nat, session: nat, now: real) returns (bound: bool)
      modifies this
      ensures bound <==> Applied(old(rows), Bind(permit, token, session, now)).Some?
      ensures rows == After(old(rows), Bind(permit, token, session, now))
    {
      var i := At(rows, ByPermit(permit));
      if i < 0 || !rows[i].state.Claimed? || rows[i].token != Some(token) || rows[i].session.Some? { return false; }
      rows := rows[i := rows[i].(state := Active, session := Some(session), token := None, updated := now)];
      return true;
    }

    method FailClaimed(permit: nat, token: nat, now: real) returns (failed: bool)
      modifies this
      ensures failed <==> Applied(old(rows), FailClaim(permit, token, now)).Some?
      ensures rows == After(old(rows), FailClaim(permit, token, now))
    {
      var i := At(rows, ByPermit(permit));
      if i < 0 || !rows[i].state.Claimed? || rows[i].token != Some(token) { return false; }
      rows := rows[i := Fail(rows[i], now)];
      return true;
    }

    /** Terminalize a claimed or bound approval after session creation failed. */
    method FailStartForSession(permit: nat, session: nat, now: real) returns (failed: bool)
      modifies this
      ensures failed <==> Applied(old(rows), FailStart(permit, session, now)).Some?
      ensures rows == After(old(rows), FailStart(permit, session, now))
    {
      var i := At(rows, ByPermit(permit));
      if i < 0 || !(rows[i].state.Claimed? || rows[i].state.Active?) { return false; }
      if rows[i].state.Active? && rows[i].session != Some(session) { return false; }
      rows := rows[i := Fail(rows[i], now).(session := Some(session))];
      return true;
    }

    /** Startup only: consume a CLAIMED approval whose token died with its process. */
    method StartupFailLostClaim(permit: nat, permitHash: nat, now: real) returns (found: bool)
      modifies this
      ensures found <==> Applied(old(rows), FailLostClaim(permit, permitHash, now)).Some?
      ensures rows == After(old(rows), FailLostClaim(permit, permitHash, now))
    {
      var i := At(rows, ByPermit(permit));
      if i < 0 { return false; }
      if rows[i].permitHash == permitHash && rows[i].state.Claimed? && rows[i].session == None {
        rows := rows[i := Fail(rows[i], now)];
      }
      return true;
    }

    /** Startup only: `attested` when control and session both stand in CLEANUP under this permit. */
    method StartupBindLostClaim(permit: nat, permitHash: nat, session: nat, attested: bool, now: real) returns (bound: bool)
      modifies this
      ensures bound <==> Applied(old(rows), BindLostClaim(permit, permitHash, session, attested, now)).Some?
      ensures rows == After(old(rows), BindLostClaim(permit, permitHash, session, attested, now))
    {
      if !attested { return false; }
      var i := At(rows, ByPermit(permit));
      if i < 0 || rows[i].permitHash != permitHash || !rows[i].state.Claimed? || rows[i].session.Some? { return false; }
      rows := rows[i := rows[i].(state := Active, session := Some(session), token := None, updated := now)];
      return true;
    }

    /** Idempotent once consumed. */
    method ConsumeSession(session: nat, now: real) returns (consumed: bool)
      modifies this
      ensures consumed <==> Applied(old(rows), Consume(session, now)).Some?
      ensures rows == After(old(rows), Consume(session, now))
    {
      var first := FirstOfSession(rows, session);
      if first.Some? && first.value.state.Consumed? { return true; }
      var i := At(rows, ByActiveSession(session));
      if i < 0 { return false; }
      rows := rows[i := rows[i].(state := Consumed, updated := now)];
      return true;
    }

    /**
      The startup audit: walk the APPROVED and CLAIMED rows, leave the fresh and the matched ones, and
      fail the orphans.  A failing compare-and-set would roll everything back.
    */
    method AuditOrphanedClaims(now: real, lease: real, absenceAttested: bool, live: seq<Authority>)
      returns (done: bool, failed: seq<nat>, matched: seq<nat>, pending: seq<nat>, manualReview: bool)
      modifies this
      ensures rows == After(old(rows), Audit(now, lease, absenceAttested, live))
      ensures done <==> Applied(old(rows), Audit(now, lease, absenceAttested, live)).Some?
      ensures done ==>
                && failed == Listed(old(rows), Orphan, now, lease, absenceAttested, live)
                && matched == Listed(old(rows), Matched, now, lease, absenceAttested, live)
                && pending == Listed(old(rows), Pending, now, lease, absenceAttested, live)
                && (manualReview <==> (failed != [] && live != []) || |failed| > 1)
    {
      failed, matched, pending, manualReview := [], [], [], false;
      if lease <= 0.0 || lease > AUDIT_LEASE { return false, [], [], [], false; }
      var audited: seq<Approval> := [];
      var i := 0;
      while i < |rows|
        invariant 0 <= i <= |rows| && rows == old(rows)
        invariant AuditRows(rows[..i], now, lease, absenceAttested, live) == Some(audited)
        invariant failed == Listed(rows[..i], Orphan, now, lease, absenceAttested, live)
        invariant matched == Listed(rows[..i], Matched, now, lease, absenceAttested, live)
        invariant pending == Listed(rows[..i], Pending, now, lease, absenceAttested, live)
      {
        var row := rows[i];
        assert rows[..i + 1][..i] == rows[..i];
        assert rows[..i + 1][i] == row;
        var verdict := Audited(row, now, lease, absenceAttested, live);
        if verdict.Orphan? {
          if row.session != None {
            AuditStopped(rows, i, now, lease, absenceAttested, live);
            return false, [], [], [], false;
          }
          failed, audited := failed + [row.permit], audited + [Fail(row, now)];
        } else {
          if verdict.Pending? { pending := pending + [row.permit]; }
          if verdict.Matched? { matched := matched + [row.permit]; }
          audited := audited + [row];
        }
        i := i + 1;
      }
      assert rows[..i] == rows;
      rows := audited;
      return true, failed, matched, pending, (failed != [] && live != []) || |failed| > 1;
    }
  }

  /** The permits an audit puts in one of its lists. */
  function Listed(rows: seq<Approval>, verdict: AuditVerdict, now: real, lease: real, absenceAttested: bool, live: seq<Authority>): seq<nat> {
    if rows == [] then [] else
      var n := |rows| - 1;
      Listed(rows[..n], verdict, now, lease, absenceAttested, live)
      + (if Audited(rows[n], now, lease, absenceAttested, live) == verdict then [rows[n].permit] else [])
  }

  /** Each list holds the permits of exactly the rows it is for. */
  lemma {:induction false} ListedExactly(
    rows: seq<Approval>, verdict: AuditVerdict, now: real, lease: real, absenceAttested: bool, live: seq<Authority>, permit: nat)
    ensures permit in Listed(rows, verdict, now, lease, absenceAttested, live) <==>
              exists i :: 0 <= i < |rows| && rows[i].permit == permit && Audited(rows[i], now, lease, absenceAttested, live) == verdict
  {
    if rows != [] {
      var n := |rows| - 1;
      ListedExactly(rows[..n], verdict, now, lease, absenceAttested, live, permit);
      assert forall i :: 0 <= i < n ==> rows[..n][i] == rows[i];
      assert permit in Listed(rows, verdict, now, lease, absenceAttested, live) <==>
               permit in Listed(rows[..n], verdict, now, lease, absenceAttested, live)
               || (Audited(rows[n], now, lease, absenceAttested, live) == verdict && rows[n].permit == permit);
    }
  }

  /** What the lists of an audit say: who was failed, who is backed, and who may still come back. */
  lemma AuditListsMean(rows: seq<Approval>, now: real, lease: real, absenceAttested: bool, live: seq<Authority>, permit: nat)
    ensures permit in Listed(rows, Orphan, now, lease, absenceAttested, live) <==>
              exists i :: 0 <= i < |rows| && rows[i].permit == permit
                && Abandoned(rows[i], now, lease, absenceAttested) && !Backed(rows[i], live)
    ensures permit in Listed(rows, Matched, now, lease, absenceAttested, live) <==>
              exists i :: 0 <= i < |rows| && rows[i].permit == permit
                && Abandoned(rows[i], now, lease, absenceAttested) && Backed(rows[i], live)
    ensures permit in Listed(rows, Pending, now, lease, absenceAttested, live) <==>
              exists i :: 0 <= i < |rows| && rows[i].permit == permit
                && (rows[i].state.Approved? || rows[i].state.Claimed?) && !absenceAttested && now - rows[i].updated < lease
  {
    ListedExactly(rows, Orphan, now, lease, absenceAttested, live, permit);
    ListedExactly(rows, Matched, now, lease, absenceAttested, live, permit);
    ListedExactly(rows, Pending, now, lease, absenceAttested, live, permit);
    forall i | 0 <= i < |rows| { VerdictsMean(rows[i], now, lease, absenceAttested, live); }
  }

  lemma {:induction false} AuditStopped(rows: seq<Approval>, i: nat, now: real, lease: real, absenceAttested: bool, live: seq<Authority>)
    requires i < |rows| && AuditRow(rows[i], now, lease, absenceAttested, live) == None
    ensures AuditRows(rows, now, lease, absenceAttested, live) == None
    decreases |rows|
  {
    var n := |rows| - 1;
    if i < n { AuditStopped(rows[..n], i, now, lease, absenceAttested, live); }
  }

  /** At most one approval is ever audited, so an audit never has two failures to review. */
  lemma {:induction false} AtMostOneFailed(rows: seq<Approval>, now: real, lease: real, absenceAttested: bool, live: seq<Authority>)
    requires OneOpen(rows)
    ensures |Listed(rows, Orphan, now, lease, absenceAttested, live)| <= 1
    ensures NoneOpen(rows) ==> Listed(rows, Orphan, now, lease, absenceAttested, live) == []
  {
    if rows != [] {
      var n := |rows| - 1;
      assert forall i :: 0 <= i < n ==> rows[..n][i] == rows[i];
      AtMostOneFailed(rows[..n], now, lease, absenceAttested, live);
      if rows[n].state.Open() {
        assert NoneOpen(rows[..n]);
      }
    }
  }

  /**
    The replay check is on what a row holds now.  Claiming with a reseal replaces the permit identity,
    so from then on the original permit no longer blocks a new candidate; only its approval id does.
  */
  lemma ResealFreesOriginalPermit(rows: seq<Approval>, permit: nat, permitHash: nat, token: nat, key: (nat, nat), now: real, approval: nat)
    requires Kept(rows) && key.0 != permit && key.1 != permitHash
    requires Applied(rows, Claim(permit, permitHash, token, Some(key), true, now)).Some?
    ensures Unused(After(rows, Claim(permit, permitHash, token, Some(key), true, now)), permit, permitHash, approval)
            <==> forall i :: 0 <= i < |rows| ==> rows[i].approval != approval
  {
    var i := At(rows, ByPermit(permit));
    var later := After(rows, Claim(permit, permitHash, token, Some(key), true, now));
    assert forall j :: 0 <= j < |rows| ==> later[j].approval == rows[j].approval;
    assert forall j :: 0 <= j < |rows| && j != i ==> later[j] == rows[j] && rows[j].permit != permit && rows[j].permitHash != permitHash;
  }
}
