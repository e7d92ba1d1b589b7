/**
  The final POST edge (BinanceSpotFunctionalMutationEdge): everything local is checked, the durable
  marker is committed, and only then is the transport entered, once.

  What the edge raises is not always what happened: releasing the reservation can replace an outcome
  by NOT_SENT after the transport was entered.  The contract says exactly when.
*/
module FunctionalMutationEdge {
  import opened FunctionalVocabulary
  import opened DurableLedger

  datatype Response = TransportRaised | NotAccepted | NoOrderBody | OrderBody(orderId: nat)

  /** How the reservation and lease contexts are left. */
  datatype Release = CleanRelease | ExclusivityFault | OtherFault

  /** What the environment answers to one call of the edge, in the order it is asked. */
  datatype Answers = Answers(
    productionAvailable: bool,
    reserved: bool,
    leaseActive: bool,
    authorityExact: bool,
    requestReady: bool,
    healthy: bool,
    markerReadBack: bool,
    leaseStillActive: bool,
    response: Response,
    release: Release,
    claimReadable: bool)

  datatype EdgeReply = RaisedNotSent | RaisedUnknown | OrderReceipt(orderId: nat)

  /** The durable claim is SUBMITTING with exactly this action sealed. */
  predicate SealedForSubmit(L: Ledger, k: Kind, a: SealedAction) {
    InState(L, k, Submitting) && L.rows[k].action == a
  }

  /** Every check before the marker passes and the marker's compare-and-set succeeds. */
  predicate Crosses(L: Ledger, k: Kind, a: SealedAction, env: Answers) {
    && env.productionAvailable && env.reserved && env.leaseActive
    && SealedForSubmit(L, k, a)
    && env.authorityExact && env.requestReady && (a.kind.ForCleanup() || env.healthy)
    && MarkAllowed(L, k)
  }

  /** The transport is entered. */
  predicate Sends(L: Ledger, k: Kind, a: SealedAction, env: Answers) {
    Crosses(L, k, a, env) && env.markerReadBack && env.leaseStillActive
  }

  class MutationEdge {
    const ledger: DurableFunctionalLedger
    /** Every entry into the physical sender. */
    ghost var transport: seq<Kind>

    constructor (ledger: DurableFunctionalLedger)
      ensures this.ledger == ledger && transport == []
    {
      this.ledger := ledger;
      transport := [];
    }

    /** _dispatch_under_lease: `RaisedNotSent` here is raised by a check or a reader, before any release. */
    method DispatchUnderLease(k: Kind, a: SealedAction, env: Answers, now: real) returns (reply: EdgeReply)
      modifies ledger`rows, this`transport
      requires env.productionAvailable && env.reserved && env.leaseActive
      ensures ledger.Tables() ==
                if Crosses(old(ledger.Tables()), k, a, env) then WithMarker(old(ledger.Tables()), k, now) else old(ledger.Tables())
      ensures transport == old(transport) + (if Sends(old(ledger.Tables()), k, a, env) then [k] else [])
      ensures reply.RaisedNotSent? <==> !Crosses(old(ledger.Tables()), k, a, env) || !env.markerReadBack
      ensures reply.OrderReceipt? <==> Sends(old(ledger.Tables()), k, a, env) && env.response.OrderBody?
      ensures reply.OrderReceipt? ==> reply.orderId == env.response.orderId
    {
      if k !in ledger.rows || ledger.rows[k].state != Submitting || ledger.rows[k].action != a { return RaisedNotSent; }
      if !env.authorityExact { return RaisedNotSent; }
      if !env.requestReady { return RaisedNotSent; }
      if !a.kind.ForCleanup() && !env.healthy { return RaisedNotSent; }
      var marked := ledger.MarkPostMayHaveCrossed(k, now);
      if !marked { return RaisedNotSent; }
      if !env.markerReadBack || ledger.rows[k].state != PostMayHaveCrossed { return RaisedNotSent; }
      if !env.leaseStillActive { return RaisedUnknown; }
      transport := transport + [k];
      match env.response
      case TransportRaised => return RaisedUnknown;
      case NotAccepted => return RaisedUnknown;
      case NoOrderBody => return RaisedUnknown;
      case OrderBody(orderId) => return OrderReceipt(orderId);
    }

    /**
      The whole call.  The marker and the transport happen exactly under Crosses and Sends; a receipt
      or an unknown outcome is only ever reported for a claim whose marker is set; and NOT_SENT is
      reported for a claim whose marker is set exactly when a failure replaced the outcome and the
      claim was not read back as marked.
    */
    method Invoke(k: Kind, a: SealedAction, env: Answers, now: real) returns (reply: EdgeReply)
      modifies ledger`rows, this`transport
      ensures ledger.Tables() ==
                if Crosses(old(ledger.Tables()), k, a, env) then WithMarker(old(ledger.Tables()), k, now) else old(ledger.Tables())
      ensures transport == old(transport) + (if Sends(old(ledger.Tables()), k, a, env) then [k] else [])
      ensures reply.OrderReceipt? <==>
                Sends(old(ledger.Tables()), k, a, env) && env.response.OrderBody? && env.release.CleanRelease?
      ensures reply.OrderReceipt? ==> reply.orderId == env.response.orderId
      ensures InState(old(ledger.Tables()), k, PostMayHaveCrossed) || Crosses(old(ledger.Tables()), k, a, env)
              || reply.RaisedNotSent?
      ensures Crosses(old(ledger.Tables()), k, a, env) ==>
                (reply.RaisedNotSent? <==>
                   env.release.ExclusivityFault?
                   || (!env.claimReadable && (env.release.OtherFault? || !env.markerReadBack)))
    {
      if !env.productionAvailable || !env.reserved { return RaisedNotSent; }
      var inner := RaisedNotSent;
      if env.leaseActive {
        inner := DispatchUnderLease(k, a, env, now);
      }
      if env.release.ExclusivityFault? { return RaisedNotSent; }
      if env.release.CleanRelease? && !inner.RaisedNotSent? { return inner; }
      // Any other exception is classified by the state the claim is read back in.
      if env.claimReadable && k in ledger.rows && ledger.rows[k].state == PostMayHaveCrossed { return RaisedUnknown; }
      return RaisedNotSent;
    }
  }
}
