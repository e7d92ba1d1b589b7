/**
  Re-verifying the exclusivity phase chain at finalization (_exclusivity_phase_chain): the recorded
  proofs must be in bijection with the boundaries the session's actions require.
*/
module ExclusivityPhaseChain {
  import opened FunctionalVocabulary
  import opened DurableLedger

  datatype Boundary = BaselineBoundary | ActivationBoundary | TerminalBoundary | PrePostBoundary(kind: Kind) | UnknownBoundary(tag: nat)

  /** What a boundary hash seals. */
  datatype Seal = ActionSeal(action: SealedAction) | TruthSeal(tag: nat)

  datatype Proof = Proof(boundary: Boundary, identityExact: bool, boundarySeal: Seal, body: nat)

  /** A session record: its proof document, and whether the stored hash is that document's. */
  datatype Record = Record(proof: Option<Proof>, hashExact: bool)

  /** The boundaries the session requires; None where any boundary hash will do. */
  function Expected(rows: map<Kind, ActionRow>, terminal: Proof): (expected: map<Boundary, Option<Seal>>)
    ensures BaselineBoundary in expected && ActivationBoundary in expected && TerminalBoundary in expected
    ensures forall k :: PrePostBoundary(k) in expected <==> k in rows && k.Natural()
    ensures forall tag :: UnknownBoundary(tag) !in expected
    ensures forall k :: k in rows && k.Natural() ==> expected[PrePostBoundary(k)] == Some(ActionSeal(rows[k].action))
  {
    map[BaselineBoundary := None, ActivationBoundary := None, TerminalBoundary := Some(terminal.boundarySeal)]
    + (if Buy in rows then map[PrePostBoundary(Buy) := Some(ActionSeal(rows[Buy].action))] else map[])
    + (if Sell in rows then map[PrePostBoundary(Sell) := Some(ActionSeal(rows[Sell].action))] else map[])
  }

  /** A record that verifies by itself. */
  predicate Verifies(record: Record, expected: map<Boundary, Option<Seal>>, terminal: Proof) {
    && record.proof.Some?
    && var proof := record.proof.value;
       && proof.boundary in expected && record.hashExact && proof.identityExact
       && (expected[proof.boundary].Some? ==> proof.boundarySeal == expected[proof.boundary].value)
       && (proof.boundary.TerminalBoundary? ==> proof == terminal)
  }

  /** Every record verifies, no boundary is recorded twice, and no required boundary is missing. */
  ghost predicate Bijective(records: seq<Record>, expected: map<Boundary, Option<Seal>>, terminal: Proof) {
    && (forall i :: 0 <= i < |records| ==> Verifies(records[i], expected, terminal))
    && (forall i, j :: 0 <= i < j < |records| ==> records[i].proof.value.boundary != records[j].proof.value.boundary)
    && (forall b :: b in expected ==> exists i :: 0 <= i < |records| && records[i].proof.value.boundary == b)
  }

  // ---- What the loop accumulates ------------------------------------------------------------------

  function Recorded(records: seq<Record>): set<Boundary> {
    if records == [] then {} else
      var last := records[|records| - 1];
      Recorded(records[..|records| - 1]) + (if last.proof.Some? then {last.proof.value.boundary} else {})
  }

  predicate ValidSoFar(records: seq<Record>, expected: map<Boundary, Option<Seal>>, terminal: Proof) {
    records == [] ||
    var last := records[|records| - 1];
    var rest := records[..|records| - 1];
    ValidSoFar(rest, expected, terminal) && Verifies(last, expected, terminal) && last.proof.value.boundary !in Recorded(rest)
  }

  lemma {:induction false} RecordedHas(records: seq<Record>, b: Boundary)
    ensures b in Recorded(records) <==> exists i :: 0 <= i < |records| && records[i].proof.Some? && records[i].proof.value.boundary == b
  {
    if records != [] {
      var n := |records| - 1;
      RecordedHas(records[..n], b);
      if b in Recorded(records[..n]) {
        var i :| 0 <= i < n && records[..n][i].proof.Some? && records[..n][i].proof.value.boundary == b;
        assert records[i].proof.Some? && records[i].proof.value.boundary == b;
      } else if b in Recorded(records) {
        assert records[n].proof.Some? && records[n].proof.value.boundary == b;
      } else {
        forall i | 0 <= i < n ensures !(records[i].proof.Some? && records[i].proof.value.boundary == b) {
          assert records[..n][i] == records[i];
        }
      }
    }
  }

  ghost predicate VerifiedOnce(records: seq<Record>, expected: map<Boundary, Option<Seal>>, terminal: Proof) {
    && (forall i :: 0 <= i < |records| ==> Verifies(records[i], expected, terminal))
    && (forall i, j :: 0 <= i < j < |records| ==> records[i].proof.value.boundary != records[j].proof.value.boundary)
  }

  lemma {:induction false} ValidMeansVerifiedOnce(records: seq<Record>, expected: map<Boundary, Option<Seal>>, terminal: Proof)
    ensures ValidSoFar(records, expected, terminal) ==>
              VerifiedOnce(records, expected, terminal) && |Recorded(records)| == |records| && Recorded(records) <= expected.Keys
  {
    if records != [] && ValidSoFar(records, expected, terminal) {
      var n := |records| - 1;
      ValidMeansVerifiedOnce(records[..n], expected, terminal);
      RecordedHas(records[..n], records[n].proof.value.boundary);
      forall i | 0 <= i < n
        ensures Verifies(records[i], expected, terminal) && records[i].proof.value.boundary != records[n].proof.value.boundary
      {
        assert records[..n][i] == records[i];
      }
      forall i, j | 0 <= i < j < n ensures records[i].proof.value.boundary != records[j].proof.value.boundary {
        assert records[..n][i] == records[i] && records[..n][j] == records[j];
      }
    }
  }

  lemma {:induction false} VerifiedOnceIsValid(records: seq<Record>, expected: map<Boundary, Option<Seal>>, terminal: Proof)
    requires VerifiedOnce(records, expected, terminal)
    ensures ValidSoFar(records, expected, terminal)
  {
    if records != [] {
      var n := |records| - 1;
      VerifiedOnceIsValid(records[..n], expected, terminal);
      RecordedHas(records[..n], records[n].proof.value.boundary);
    }
  }

  /** The three tests at the end of the loop are together exactly the bijection. */
  lemma CompleteIsBijective(records: seq<Record>, expected: map<Boundary, Option<Seal>>, terminal: Proof)
    ensures (ValidSoFar(records, expected, terminal) && Recorded(records) == expected.Keys && |records| == |expected|)
            <==> Bijective(records, expected, terminal)
  {
    ValidMeansVerifiedOnce(records, expected, terminal);
    forall b ensures b in Recorded(records) <==> exists i :: 0 <= i < |records| && records[i].proof.Some? && records[i].proof.value.boundary == b {
      RecordedHas(records, b);
    }
    if Bijective(records, expected, terminal) {
      VerifiedOnceIsValid(records, expected, terminal);
      assert expected.Keys <= Recorded(records);
      assert |expected| == |expected.Keys|;
    }
  }

  /** The chain is complete exactly when records and required boundaries are in bijection. */
  method PhaseChainComplete(records: seq<Record>, expected: map<Boundary, Option<Seal>>, terminal: Proof)
    returns (complete: bool)
    ensures complete <==> Bijective(records, expected, terminal)
  {
    var seen: set<Boundary> := {};
    var valid := true;
    var i := 0;
    while i < |records|
      invariant 0 <= i <= |records|
      invariant valid == ValidSoFar(records[..i], expected, terminal) && seen == Recorded(records[..i])
    {
      var record := records[i];
      assert records[..i + 1][..i] == records[..i];
      if record.proof == None {
        valid := false;
      } else {
        valid := valid && record.proof.value.boundary !in seen && Verifies(record, expected, terminal);
        seen := seen + {record.proof.value.boundary};
      }
      i := i + 1;
    }
    assert records[..i] == records;
    complete := valid && seen == expected.Keys && |records| == |expected|;
    CompleteIsBijective(records, expected, terminal);
  }

  /**
    A complete chain holds, for each natural leg the session claimed, one and only one pre-POST
    record, and that record seals exactly the action that was claimed -- and it ends in exactly the
    terminal proof the finalizer obtained.
  */
  lemma EveryLegSealedOnce(records: seq<Record>, rows: map<Kind, ActionRow>, terminal: Proof, k: Kind)
    requires Bijective(records, Expected(rows, terminal), terminal)
    requires k in rows && k.Natural()
    ensures exists i :: 0 <= i < |records|
              && records[i].proof.value.boundary == PrePostBoundary(k)
              && records[i].proof.value.boundarySeal == ActionSeal(rows[k].action)
              && forall j :: 0 <= j < |records| && records[j].proof.value.boundary == PrePostBoundary(k) ==> j == i
    ensures exists i :: 0 <= i < |records| && records[i].proof == Some(terminal)
  {
    var i :| 0 <= i < |records| && records[i].proof.value.boundary == PrePostBoundary(k);
    assert Verifies(records[i], Expected(rows, terminal), terminal);
    var t :| 0 <= t < |records| && records[t].proof.value.boundary == TerminalBoundary;
    assert Verifies(records[t], Expected(rows, terminal), terminal);
    assert records[t].proof == Some(terminal);
  }

  /** Nothing else is recorded: as many records as three phase boundaries plus the natural legs claimed. */
  lemma NoOtherRecord(records: seq<Record>, rows: map<Kind, ActionRow>, terminal: Proof)
    requires Bijective(records, Expected(rows, terminal), terminal)
    ensures forall i :: 0 <= i < |records| ==>
              match records[i].proof.value.boundary
              case PrePostBoundary(k) => k in rows && k.Natural()
              case UnknownBoundary(_) => false
              case _ => true
  {
    forall i | 0 <= i < |records| ensures records[i].proof.value.boundary in Expected(rows, terminal) {
      assert Verifies(records[i], Expected(rows, terminal), terminal);
    }
  }

  // ---- What a complete chain is ------------------------------------------------------------------------

  /** The session must have a record of this: the three phase boundaries and each natural leg it claimed. */
  predicate Required(b: Boundary, rows: map<Kind, ActionRow>) {
    match b
    case PrePostBoundary(k) => k in rows && (k == Buy || k == Sell)
    case UnknownBoundary(_) => false
    case _ => true
  }

  predicate IsAt(record: Record, b: Boundary) { record.proof.Some? && record.proof.value.boundary == b }

  /** Hash and identity are the sealed ones, a leg's record seals the claimed action, the terminal one is the proof just obtained. */
  predicate Proper(record: Record, rows: map<Kind, ActionRow>, terminal: Proof) {
    && record.proof.Some? && record.hashExact && record.proof.value.identityExact && Required(record.proof.value.boundary, rows)
    && match record.proof.value.boundary
       case PrePostBoundary(k) => record.proof.value.boundarySeal == ActionSeal(rows[k].action)
       case TerminalBoundary => record.proof == Some(terminal)
       case _ => true
  }

  ghost predicate RecordedOnce(records: seq<Record>, b: Boundary) {
    exists i :: 0 <= i < |records| && IsAt(records[i], b) && forall j :: 0 <= j < |records| && IsAt(records[j], b) ==> j == i
  }

  lemma VerifiesExactly(record: Record, rows: map<Kind, ActionRow>, terminal: Proof)
    ensures Verifies(record, Expected(rows, terminal), terminal) <==> Proper(record, rows, terminal)
  {
    if record.proof.Some? && record.proof.value.boundary.PrePostBoundary? {
      var k := record.proof.value.boundary.kind;
      assert k.Natural() <==> k == Buy || k == Sell;
    }
  }

  lemma RequiredExactly(b: Boundary, rows: map<Kind, ActionRow>, terminal: Proof)
    ensures b in Expected(rows, terminal) <==> Required(b, rows)
  {}

  /**
    A chain is complete if and only if every record is proper and every required boundary is recorded
    exactly once: one baseline, one activation, the terminal proof, and one record for each natural leg.
  */
  lemma CompleteExactly(records: seq<Record>, rows: map<Kind, ActionRow>, terminal: Proof)
    ensures Bijective(records, Expected(rows, terminal), terminal) <==>
              && (forall i :: 0 <= i < |records| ==> Proper(records[i], rows, terminal))
              && (forall b :: Required(b, rows) ==> RecordedOnce(records, b))
  {
    forall i | 0 <= i < |records|
      ensures Verifies(records[i], Expected(rows, terminal), terminal) <==> Proper(records[i], rows, terminal)
    {
      VerifiesExactly(records[i], rows, terminal);
    }
    forall b ensures b in Expected(rows, terminal) <==> Required(b, rows) { RequiredExactly(b, rows, terminal); }
    if Bijective(records, Expected(rows, terminal), terminal) {
      forall b | Required(b, rows) ensures RecordedOnce(records, b) {
        var i :| 0 <= i < |records| && records[i].proof.value.boundary == b;
        assert IsAt(records[i], b);
      }
    }
    if (forall i :: 0 <= i < |records| ==> Proper(records[i], rows, terminal)) && (forall b :: Required(b, rows) ==> RecordedOnce(records, b)) {
      OnceIsDistinct(records, rows, terminal);
    }
  }

  lemma OnceIsDistinct(records: seq<Record>, rows: map<Kind, ActionRow>, terminal: Proof)
    requires forall i :: 0 <= i < |records| ==> Proper(records[i], rows, terminal)
    requires forall b :: Required(b, rows) ==> RecordedOnce(records, b)
    ensures forall i :: 0 <= i < |records| ==> records[i].proof.Some?
    ensures forall i, j :: 0 <= i < j < |records| ==> records[i].proof.value.boundary != records[j].proof.value.boundary
    ensures forall b :: Required(b, rows) ==> exists i :: 0 <= i < |records| && records[i].proof.value.boundary == b
  {
    forall i | 0 <= i < |records| ensures records[i].proof.Some? { assert Proper(records[i], rows, terminal); }
    forall i, j | 0 <= i < j < |records| ensures records[i].proof.value.boundary != records[j].proof.value.boundary {
      var b := records[i].proof.value.boundary;
      assert Proper(records[i], rows, terminal) && Required(b, rows) && RecordedOnce(records, b);
      assert IsAt(records[i], b);
    }
    forall b | Required(b, rows) ensures exists i :: 0 <= i < |records| && records[i].proof.value.boundary == b {
      assert RecordedOnce(records, b);
    }
  }
}
