/**
  The entities of the Binance Spot functional lane: the kinds of action a session may claim, the
  life of a durable claim, the life of a session, and the broker truth a service call is given.

  Money and epochs are exact reals.  A hash is modelled by the value it seals, so equal hashes mean
  equal contents.  A client order id is its owner prefix plus a suffix that determines the action
  kind (module ClientOrderIds), so inside one session the kind itself serves as the client id.
*/
module FunctionalVocabulary {

  const MAX_ORDER_NOTIONAL := 10.0
  const MAX_GROSS_EXPOSURE := 10.0
  const MAX_OWNER_LOSS := 1.0
  const MAX_CLEANUP_ACTIONS: nat := 12
  const NONACCEPTANCE_MIN_AGE := 60.0
  const NONACCEPTANCE_MIN_SPACING := 5.0
  const NONACCEPTANCE_MIN_OBSERVATIONS: nat := 2
  const TRUTH_EPOCH_TOLERANCE := 0.001
  const MAX_TRUTH_AGE := 15.0
  const PERMIT_SECONDS := 7200.0

  datatype Option<+T> = None | Some(value: T)

  /** The result of an operation that the source lets raise. */
  datatype Reply<+T> = Done(value: T) | Blocked(reason: string)

  datatype Side = BuySide | SellSide

  /** The action_kind column; cleanup kinds carry their generation. */
  datatype Kind = Buy | Sell | CleanupSell(generation: nat) | Cancel(generation: nat)
  {
    predicate Trade() { !Cancel? }
    predicate Natural() { Buy? || Sell? }
    predicate ForCleanup() { CleanupSell? || Cancel? }
    predicate Sells() { Sell? || CleanupSell? }
    function OrderSide(): Side { if Buy? then BuySide else SellSide }
  }

  /** An order's client id: one this session derived, or anybody else's. */
  datatype ClientId = Owned(kind: Kind) | Foreign(tag: nat)

  /** What a claim seals before any side effect.  `target` and `targetOrderId` matter for a CANCEL only. */
  datatype SealedAction = SealedAction(
    kind: Kind,
    quantity: real,
    quoteOrderQty: real,
    target: Option<Kind>,
    targetOrderId: nat,
    barClose: real)

  datatype ActionState =
    | Claimed
    | Submitting
    | PostMayHaveCrossed
    | Acknowledged
    | ReconciliationRequired
    | Reconciled
    | NotSent
    | ProvenNotAccepted
    | AmbiguousProvenNotAccepted
  {
    predicate Terminal() { Reconciled? || ProvenNotAccepted? || AmbiguousProvenNotAccepted? }
    /** The two outcomes a delayed nonacceptance proof may be appended to. */
    predicate Ambiguous() { PostMayHaveCrossed? || ReconciliationRequired? }
    /** The states broker truth may reconcile. */
    predicate Reconcilable() { Acknowledged? || Submitting? || Ambiguous() }
  }

  /** The signed GET by origClientOrderId that accompanies a nonacceptance observation. */
  datatype OrderQuery = OrderQuery(complete: bool, symbolExact: bool, client: ClientId, notFound: bool, errorCode: int, observed: real)

  /** One sealed nonacceptance observation. */
  datatype AbsenceProof = AbsenceProof(
    kind: Kind,
    observed: real,
    baseTotal: real,
    quoteTotal: real,
    open: seq<OrderRow>,
    closed: seq<OrderRow>,
    fills: seq<Fill>,
    query: OrderQuery)

  /** The rolling hash of absence proofs, as the injective term it hashes. */
  datatype ProofChain = NoProof | Rolled(prior: ProofChain, proof: AbsenceProof)

  /**
    `absenceFrom` is the epoch of the last durable change before the first observation; the table
    itself overwrites it, as `updated`, with the first observation.
  */
  datatype ActionRow = ActionRow(
    action: SealedAction,
    state: ActionState,
    preBase: Option<real>,
    preQuote: Option<real>,
    absenceCount: nat,
    absenceFrom: real,
    absenceFirst: real,
    absenceLast: real,
    absenceProof: ProofChain,
    postMarker: Option<real>,
    created: real,
    updated: real)

  datatype SessionState = Running | CleanupOnly | NeedsReconciliation | FinalPrepared | Finalized | Failed
  {
    predicate Final() { FinalPrepared? || Finalized? || Failed? }
  }

  datatype Outcome =
    | PassFullRoundTrip
    | NaturalSellAbsent
    | NoSignal
    | NoEntry
    | OwnerLossLimitReached
    | RecoveredStreamGap
    | EarlyTermination
    | PhaseChainUnproven
    | SupervisedNonPromotion
    | CausalClosureUnproven
    | StartFailedBeforeActivation

  /** The sealed final evidence, cut down to the claims about money and execution. */
  datatype Evidence = Evidence(
    outcome: Outcome,
    baseTotal: real,
    ownedResidual: real,
    residualIsDust: bool,
    ownerLoss: real,
    feesQuoteExact: bool,
    streamGapRecovered: bool,
    filledKinds: set<Kind>,
    actionCount: nat)

  datatype SessionRow = SessionRow(
    state: SessionState,
    capability: Option<nat>,
    baselineBase: real,
    started: real,
    expires: real,
    cleanupDeadline: real,
    lastBarClose: real,
    buyClaimed: bool,
    sellClaimed: bool,
    cleanupSellClaimed: nat,
    cleanupStarted: bool,
    recoveryUsed: bool,
    evidence: Option<Evidence>)

  datatype FeeAsset = BaseFee | QuoteFee | OtherFee

  datatype Fill = Fill(
    client: ClientId,
    tradeId: nat,
    side: Side,
    quantity: real,
    quote: real,
    commission: real,
    feeAsset: FeeAsset,
    feeQuoteExact: bool,
    feeQuoteValue: real)

  datatype OrderStatus = New | PendingNew | PartiallyFilled | PendingCancel | Filled | Canceled | Rejected | Expired
  {
    predicate Terminal() { Filled? || Canceled? || Rejected? || Expired? }
  }

  datatype OrderRow = OrderRow(
    client: ClientId,
    orderId: nat,
    side: Side,
    market: bool,
    status: OrderStatus,
    origQty: real,
    origQuoteOrderQty: real,
    executedQty: real,
    executedQuote: real)

  /** A parsed account truth: balances, all orders since the baseline, all fills with their fees. */
  datatype AccountTruth = AccountTruth(
    observed: real,
    baseTotal: real,
    quoteTotal: real,
    baseAvailable: real,
    quoteAvailable: real,
    markPrice: real,
    open: seq<OrderRow>,
    closed: seq<OrderRow>,
    fills: seq<Fill>,
    externalActivityAbsent: bool,
    thirdAssetFundingAbsent: bool,
    feeValuationComplete: bool,
    recoveryOnly: bool)
  {
    function AllRows(): seq<OrderRow> { open + closed }
  }

  /** One finalized-bar evaluation row. */
  datatype Signal = SignalBuy | SignalSell | SignalHold
  datatype Evaluation = Evaluation(barClose: real, signal: Signal)
}
