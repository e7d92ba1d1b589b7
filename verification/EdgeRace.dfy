/**
  Any number of dispatchers, edge calls, reconcilers and crashes racing on one durable claim, one
  ledger transaction or one transport entry at a time.

  The marker and the NOT_SENT write are compare-and-sets on the same SUBMITTING state; that, and
  nothing about who called whom, is what makes a send unique and its denial impossible.
*/
module EdgeRace {
  import opened FunctionalVocabulary

  /** Where one thread stands inside dispatch_claim or inside the edge. */
  datatype Place =
    | Outside
    | BeforeOpen      // read the claim as CLAIMED
    | BeforeEdge      // its own SUBMITTING write succeeded
    | BeforeMarker    // the edge read the claim as SUBMITTING
    | BeforeSend      // won the marker
    | AfterSend       // entered the transport
    | Raised          // an exception, of whatever class, is on its way to the handler
    | SawSubmitting   // the handler read SUBMITTING
    | SawOtherwise    // the handler read anything else
    | Finished

  datatype Race = Race(state: ActionState, marked: bool, sends: nat, threads: map<nat, Place>)
  {
    function At(p: nat): Place { if p in threads then threads[p] else Outside }
    function Go(p: nat, place: Place): Race { this.(threads := threads[p := place]) }
    /** Compare-and-set on the state column. */
    function Cas(expected: ActionState, state': ActionState): Race {
      if state == expected then this.(state := state') else this
    }
  }

  datatype Event =
    | Arrive(p: nat)
    | OpenClaim(p: nat)
    | RefuseClaim(p: nat)
    | FinalChecksFail(p: nat)
    | EnterEdge(p: nat)
    | TryMarker(p: nat)
    | EnterTransport(p: nat)
    | Raise(p: nat)
    | ReturnReceipt(p: nat)
    | HandlerReads(p: nat)
    | HandlerWrites(p: nat)
    | Die(p: nat)
    | ReconcilerWrites(from: ActionState, to: ActionState)

  /** What reconciliation and the delayed nonacceptance proof may do to the claim. */
  predicate ReconcilerWrite(from: ActionState, to: ActionState) {
    || (from.Reconcilable() && to.Reconciled?)
    || (from.NotSent? && to.ProvenNotAccepted?)
    || (from.Ambiguous() && to.AmbiguousProvenNotAccepted?)
  }

  predicate Possible(r: Race, e: Event) {
    match e
    case Arrive(p) => r.At(p).Outside? && r.state.Claimed?
    case OpenClaim(p) => r.At(p).BeforeOpen?
    case RefuseClaim(p) => r.At(p).BeforeOpen?
    case FinalChecksFail(p) => r.At(p).BeforeEdge?
    case EnterEdge(p) => r.At(p).BeforeEdge? || r.At(p).Outside?
    case TryMarker(p) => r.At(p).BeforeMarker?
    case EnterTransport(p) => r.At(p).BeforeSend?
    case Raise(p) => r.At(p).BeforeMarker? || r.At(p).BeforeSend? || r.At(p).AfterSend?
    case ReturnReceipt(p) => r.At(p).AfterSend?
    case HandlerReads(p) => r.At(p).Raised?
    case HandlerWrites(p) => r.At(p).SawSubmitting? || r.At(p).SawOtherwise?
    case Die(_) => true
    case ReconcilerWrites(from, to) => ReconcilerWrite(from, to)
  }

  function After(r: Race, e: Event): Race
    requires Possible(r, e)
  {
    match e
    case Arrive(p) => r.Go(p, BeforeOpen)
    case OpenClaim(p) => r.Cas(Claimed, Submitting).Go(p, if r.state.Claimed? then BeforeEdge else Finished)
    case RefuseClaim(p) => r.Cas(Claimed, NotSent).Go(p, Finished)
    case FinalChecksFail(p) => r.Cas(Submitting, NotSent).Go(p, Finished)
    case EnterEdge(p) => r.Go(p, if r.state.Submitting? then BeforeMarker else Raised)
    case TryMarker(p) =>
      if r.state.Submitting? && !r.marked then r.(marked := true, state := PostMayHaveCrossed).Go(p, BeforeSend)
      else r.Go(p, Raised)
    case EnterTransport(p) => r.(sends := r.sends + 1).Go(p, AfterSend)
    case Raise(p) => r.Go(p, Raised)
    case ReturnReceipt(p) => r.Cas(PostMayHaveCrossed, Acknowledged).Go(p, Finished)
    case HandlerReads(p) => r.Go(p, if r.state.Submitting? then SawSubmitting else SawOtherwise)
    case HandlerWrites(p) =>
      (if r.At(p).SawSubmitting? then r.Cas(Submitting, NotSent) else r.Cas(PostMayHaveCrossed, ReconciliationRequired))
      .Go(p, Finished)
    case Die(p) => r.Go(p, Finished)
    case ReconcilerWrites(from, to) => r.Cas(from, to)
  }

  predicate Interleaving(r: Race, events: seq<Event>)
    decreases |events|
  {
    events == [] || (Possible(r, events[0]) && Interleaving(After(r, events[0]), events[1..]))
  }

  function Outcome(r: Race, events: seq<Event>): Race
    requires Interleaving(r, events)
    decreases |events|
  {
    if events == [] then r else Outcome(After(r, events[0]), events[1..])
  }

  const FRESH_CLAIM := Race(Claimed, false, 0, map[])

  /** The durable state denies that anything was sent. */
  predicate Denies(state: ActionState) { state.Claimed? || state.Submitting? || state.NotSent? || state.ProvenNotAccepted? }

  ghost predicate OneSender(r: Race) {
    && (forall p: nat, q: nat :: r.At(p).BeforeSend? && r.At(q).BeforeSend? ==> p == q)
    && (forall p: nat :: r.At(p).BeforeSend? ==> r.marked && r.sends == 0)
    && r.sends <= 1 && (r.sends == 1 ==> r.marked)
    && (r.marked ==> !Denies(r.state))
  }

  /** An event moves one thread at most. */
  lemma OthersStay(r: Race, e: Event, q: nat)
    requires Possible(r, e)
    requires e.ReconcilerWrites? || q != e.p
    ensures After(r, e).At(q) == r.At(q)
  {}

  lemma OneSenderKept(r: Race, e: Event)
    requires OneSender(r) && Possible(r, e)
    ensures OneSender(After(r, e))
  {
    var t := After(r, e);
    forall q: nat | e.ReconcilerWrites? || q != e.p ensures t.At(q) == r.At(q) { OthersStay(r, e, q); }
    if e.ReconcilerWrites? {
      assert OneSender(t);
    } else if e.TryMarker? {
      assert forall q: nat :: t.At(q).BeforeSend? ==> q == e.p || r.At(q).BeforeSend?;
    } else {
      assert forall q: nat :: t.At(q).BeforeSend? ==> r.At(q).BeforeSend?;
    }
  }

  lemma {:induction false} OneSenderAlways(r: Race, events: seq<Event>)
    requires OneSender(r) && Interleaving(r, events)
    ensures OneSender(Outcome(r, events))
    decreases |events|
  {
    if events != [] {
      OneSenderKept(r, events[0]);
      OneSenderAlways(After(r, events[0]), events[1..]);
    }
  }

  /** However the threads interleave, the transport is entered at most once, and a sent claim is never denied. */
  lemma AtMostOneSend(events: seq<Event>)
    requires Interleaving(FRESH_CLAIM, events)
    ensures var end := Outcome(FRESH_CLAIM, events);
            end.sends <= 1 && (end.sends == 1 ==> !Denies(end.state))
  {
    OneSenderAlways(FRESH_CLAIM, events);
  }

  /** NOT_SENT leaves nobody who could still send. */
  lemma {:induction false} NotSentStays(r: Race, events: seq<Event>)
    requires OneSender(r) && Interleaving(r, events)
    requires r.state.NotSent? || r.state.ProvenNotAccepted?
    ensures Outcome(r, events).sends == 0
    ensures Outcome(r, events).state.NotSent? || Outcome(r, events).state.ProvenNotAccepted?
    decreases |events|
  {
    if events != [] {
      OneSenderKept(r, events[0]);
      NotSentStays(After(r, events[0]), events[1..]);
    }
  }

  /** Once NOT_SENT is durable the claim is never sent: not before, and on no continuation. */
  lemma NotSentIsTrueForever(before: seq<Event>, after: seq<Event>)
    requires Interleaving(FRESH_CLAIM, before) && Interleaving(Outcome(FRESH_CLAIM, before), after)
    requires Outcome(FRESH_CLAIM, before).state.NotSent?
    ensures Outcome(FRESH_CLAIM, before).sends == 0
    ensures Outcome(Outcome(FRESH_CLAIM, before), after).sends == 0
  {
    OneSenderAlways(FRESH_CLAIM, before);
    NotSentStays(Outcome(FRESH_CLAIM, before), after);
  }

  // ---- Races that send ----------------------------------------------------------------------------------

  /** `t` is where these events lead. */
  predicate Leads(r: Race, events: seq<Event>, t: Race) { Interleaving(r, events) && Outcome(r, events) == t }

  lemma OneEvent(r: Race, e: Event, next: Race, events: seq<Event>, t: Race)
    requires Possible(r, e) && Leads(next, events, t)
    requires var after := After(r, e);
             after.state == next.state && after.marked == next.marked && after.sends == next.sends && after.threads == next.threads
    ensures Leads(r, [e] + events, t)
  {
    assert After(r, e) == next;
    assert ([e] + events)[1..] == events;
  }

  /** The claim is SUBMITTING and its dispatcher inside the edge. */
  const SUBMITTED := Race(Submitting, false, 0, map[1 := BeforeMarker])

  lemma ReachesEdge(events: seq<Event>, t: Race)
    requires Leads(SUBMITTED, events, t)
    ensures Leads(FRESH_CLAIM, [Arrive(1)] + ([OpenClaim(1)] + ([EnterEdge(1)] + events)), t)
  {
    var arrived := Race(Claimed, false, 0, map[1 := BeforeOpen]);
    var submitting := Race(Submitting, false, 0, map[1 := BeforeEdge]);
    OneEvent(submitting, EnterEdge(1), SUBMITTED, events, t);
    OneEvent(arrived, OpenClaim(1), submitting, [EnterEdge(1)] + events, t);
    OneEvent(FRESH_CLAIM, Arrive(1), arrived, [OpenClaim(1)] + ([EnterEdge(1)] + events), t);
  }

  /** A dispatcher whose every step succeeds sends once and is acknowledged. */
  lemma SmoothRaceSends() returns (events: seq<Event>, end: Race)
    ensures Leads(FRESH_CLAIM, events, end) && end.sends == 1 && end.state.Acknowledged?
  {
    var marked := Race(PostMayHaveCrossed, true, 0, map[1 := BeforeSend]);
    var sent := Race(PostMayHaveCrossed, true, 1, map[1 := AfterSend]);
    end := Race(Acknowledged, true, 1, map[1 := Finished]);
    events := [ReturnReceipt(1)] + [];
    OneEvent(sent, ReturnReceipt(1), end, [], end);
    OneEvent(marked, EnterTransport(1), sent, events, end);
    events := [EnterTransport(1)] + events;
    OneEvent(SUBMITTED, TryMarker(1), marked, events, end);
    events := [TryMarker(1)] + events;
    ReachesEdge(events, end);
    events := [Arrive(1)] + ([OpenClaim(1)] + ([EnterEdge(1)] + events));
  }

  function Both(state: ActionState, marked: bool, sends: nat, first: Place, second: Place): Race {
    Race(state, marked, sends, map[1 := first, 2 := second])
  }

  lemma RivalLoses(events: seq<Event>, end: Race)
    requires Leads(Both(ReconciliationRequired, true, 0, BeforeSend, Finished), events, end)
    ensures Leads(Both(PostMayHaveCrossed, true, 0, BeforeSend, BeforeMarker),
                  [TryMarker(2)] + ([HandlerReads(2)] + ([HandlerWrites(2)] + events)), end)
  {
    var lost, saw := Both(PostMayHaveCrossed, true, 0, BeforeSend, Raised), Both(PostMayHaveCrossed, true, 0, BeforeSend, SawOtherwise);
    OneEvent(saw, HandlerWrites(2), Both(ReconciliationRequired, true, 0, BeforeSend, Finished), events, end);
    OneEvent(lost, HandlerReads(2), saw, [HandlerWrites(2)] + events, end);
    OneEvent(Both(PostMayHaveCrossed, true, 0, BeforeSend, BeforeMarker), TryMarker(2), lost, [HandlerReads(2)] + ([HandlerWrites(2)] + events), end);
  }

  /**
    A second edge call that loses the marker writes RECONCILIATION_REQUIRED before the winner has
    sent: the outcome stays unknown although the receipt came, and nothing denies the send.
  */
  lemma RivalLeavesItUnknown() returns (events: seq<Event>, end: Race)
    ensures Leads(FRESH_CLAIM, events, end) && end.sends == 1 && end.state.ReconciliationRequired?
  {
    var sent := Both(ReconciliationRequired, true, 1, AfterSend, Finished);
    end := Both(ReconciliationRequired, true, 1, Finished, Finished);
    events := [ReturnReceipt(1)] + [];
    OneEvent(sent, ReturnReceipt(1), end, [], end);
    OneEvent(Both(ReconciliationRequired, true, 0, BeforeSend, Finished), EnterTransport(1), sent, events, end);
    events := [EnterTransport(1)] + events;
    RivalLoses(events, end);
    events := [TryMarker(2)] + ([HandlerReads(2)] + ([HandlerWrites(2)] + events));
    OneEvent(Both(Submitting, false, 0, BeforeMarker, BeforeMarker), TryMarker(1), Both(PostMayHaveCrossed, true, 0, BeforeSend, BeforeMarker), events, end);
    events := [TryMarker(1)] + events;
    OneEvent(SUBMITTED, EnterEdge(2), Both(Submitting, false, 0, BeforeMarker, BeforeMarker), events, end);
    events := [EnterEdge(2)] + events;
    ReachesEdge(events, end);
    events := [Arrive(1)] + ([OpenClaim(1)] + ([EnterEdge(1)] + events));
  }
}
