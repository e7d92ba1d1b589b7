/**
  Owner-attributed position, fees and PnL from the complete fill list (owner_metrics).

  The loop is specified by TallyFills; the lemmas below say what that tally means: it does not
  depend on the order of the fills or on fills that belong to somebody else, and the PnL it yields
  is exactly the change in the account's mark-to-market value.
*/
module OwnerMetrics {
  import opened FunctionalVocabulary

  datatype Tally = Tally(
    bought: real, sold: real, buyQuote: real, sellQuote: real,
    feesQuote: real, cashFees: real, baseFees: real, exact: bool)
  {
    function Owned(): real { bought - sold - baseFees }

    /** sell proceeds plus the mark value still owned, minus entry cost and cash fees. */
    function Pnl(mark: real): real { sellQuote + Owned() * mark - buyQuote - cashFees }
  }

  datatype Metrics = Metrics(ownedQuantity: real, ownerPnl: real, ownerLoss: real, buyQuote: real, feesExact: bool)

  const ZERO_TALLY := Tally(0.0, 0.0, 0.0, 0.0, 0.0, 0.0, 0.0, true)

  function FeeQuote(f: Fill): real { if f.feeQuoteExact then f.feeQuoteValue else 0.0 }

  predicate WellFormedFill(f: Fill) {
    f.quantity > 0.0 && f.quote > 0.0 && f.commission >= 0.0 && FeeQuote(f) >= 0.0
  }

  function AddFill(t: Tally, f: Fill): Tally {
    if f.client.Foreign? then t else
      Tally(
        if f.side.BuySide? then t.bought + f.quantity else t.bought,
        if f.side.SellSide? then t.sold + f.quantity else t.sold,
        if f.side.BuySide? then t.buyQuote + f.quote else t.buyQuote,
        if f.side.SellSide? then t.sellQuote + f.quote else t.sellQuote,
        t.feesQuote + FeeQuote(f),
        if f.feeAsset.QuoteFee? then t.cashFees + FeeQuote(f) else t.cashFees,
        if f.feeAsset.BaseFee? then t.baseFees + f.commission else t.baseFees,
        t.exact && f.feeQuoteExact)
  }

  /** The accumulators after the whole list. */
  function TallyFills(fills: seq<Fill>): Tally {
    if fills == [] then ZERO_TALLY else AddFill(TallyFills(fills[..|fills| - 1]), fills[|fills| - 1])
  }

  function OwnedFills(fills: seq<Fill>): (own: seq<Fill>)
    ensures forall f :: f in own <==> f in fills && f.client.Owned?
  {
    if fills == [] then [] else
      var last := fills[|fills| - 1];
      var rest := OwnedFills(fills[..|fills| - 1]);
      assert fills == fills[..|fills| - 1] + [last];
      if last.client.Owned? then rest + [last] else rest
  }

  predicate DistinctTrades(fills: seq<Fill>) {
    forall i, j :: 0 <= i < j < |fills| && fills[i].client.Owned? && fills[j].client.Owned?
      ==> fills[i].tradeId != fills[j].tradeId
  }

  predicate AcceptableFills(fills: seq<Fill>) {
    && (forall f :: f in fills && f.client.Owned? ==> WellFormedFill(f))
    && DistinctTrades(fills)
  }

  /** The account-delta test: exact without a stream gap, a lower bound in a REST-only recovery. */
  predicate DeltaAttributed(truth: AccountTruth, owned: real, baselineBase: real, allowRecovery: bool) {
    if truth.recoveryOnly then
      allowRecovery && truth.baseTotal - baselineBase >= owned
    else
      truth.externalActivityAbsent && truth.baseTotal - baselineBase == owned
  }

  predicate Attributable(truth: AccountTruth, baselineBase: real, allowRecovery: bool) {
    && AcceptableFills(truth.fills)
    && TallyFills(truth.fills).Owned() >= 0.0
    && DeltaAttributed(truth, TallyFills(truth.fills).Owned(), baselineBase, allowRecovery)
  }

  function MetricsOf(truth: AccountTruth): Metrics {
    var t := TallyFills(truth.fills);
    var pnl := t.Pnl(truth.markPrice);
    Metrics(t.Owned(), pnl, if -pnl > 0.0 then -pnl else 0.0, t.buyQuote, t.exact && truth.feeValuationComplete)
  }

  method ComputeOwnerMetrics(truth: AccountTruth, baselineBase: real, allowRecovery: bool)
    returns (reply: Reply<Metrics>)
    ensures reply.Done? <==> Attributable(truth, baselineBase, allowRecovery)
    ensures reply.Done? ==> reply.value == MetricsOf(truth)
  {
    var t := ZERO_TALLY;
    var seen: set<nat> := {};
    var i := 0;
    while i < |truth.fills|
      invariant 0 <= i <= |truth.fills|
      invariant t == TallyFills(truth.fills[..i])
      invariant forall f :: f in truth.fills[..i] && f.client.Owned? ==> WellFormedFill(f)
      invariant DistinctTrades(truth.fills[..i])
      invariant forall id :: id in seen <==> exists j :: 0 <= j < i && truth.fills[j].client.Owned? && truth.fills[j].tradeId == id
    {
      var f := truth.fills[i];
      assert truth.fills[..i + 1] == truth.fills[..i] + [f];
      if f.client.Owned? {
        if f.tradeId in seen {
          return Blocked("owned fills require unique tradeId");
        }
        seen := seen + {f.tradeId};
        if !WellFormedFill(f) {
          assert f in truth.fills;
          return Blocked("owned fill/fee truth is malformed");
        }
        t := AddFill(t, f);
      }
      i := i + 1;
    }
    assert truth.fills[..i] == truth.fills;
    if t.Owned() < 0.0 {
      return Blocked("owned fill ledger implies a short position");
    }
    var delta := truth.baseTotal - baselineBase;
    if truth.recoveryOnly {
      if !allowRecovery { return Blocked("REST-reconciled truth is cleanup-only"); }
      if delta < t.Owned() { return Blocked("REST cleanup cannot preserve the pre-existing BTC baseline"); }
    } else {
      if !truth.externalActivityAbsent { return Blocked("external activity absence is unproven"); }
      if delta != t.Owned() { return Blocked("account BTC delta does not equal owned fill delta"); }
    }
    reply := Done(MetricsOf(truth));
  }

  // ---- Foreign fills do not matter ----------------------------------------------------------

  lemma {:induction false} TallyIgnoresForeign(fills: seq<Fill>)
    ensures TallyFills(fills) == TallyFills(OwnedFills(fills))
  {
    if fills != [] {
      var rest := fills[..|fills| - 1];
      TallyIgnoresForeign(rest);
      if fills[|fills| - 1].client.Owned? {
        assert OwnedFills(fills)[..|OwnedFills(fills)| - 1] == OwnedFills(rest);
      }
    }
  }

  // ---- Order does not matter ------------------------------------------------------------------

  lemma AddFillCommutes(t: Tally, f: Fill, g: Fill)
    ensures AddFill(AddFill(t, f), g) == AddFill(AddFill(t, g), f)
  {}

  /** Moving one fill to the end of the list leaves the tally unchanged. */
  lemma {:induction false} TallyMoveToEnd(fills: seq<Fill>, i: nat)
    requires i < |fills|
    ensures TallyFills(fills) == AddFill(TallyFills(fills[..i] + fills[i + 1..]), fills[i])
  {
    var n := |fills| - 1;
    var without := fills[..i] + fills[i + 1..];
    if i == n {
      assert without == fills[..n];
    } else {
      TallyMoveToEnd(fills[..n], i);
      assert fills[..n][..i] == fills[..i] && fills[..n][i + 1..] == fills[i + 1..n];
      assert without[..n - 1] == fills[..i] + fills[i + 1..n] && without[n - 1] == fills[n];
      AddFillCommutes(TallyFills(fills[..i] + fills[i + 1..n]), fills[i], fills[n]);
    }
  }

  lemma RemoveOne(a: seq<Fill>, b: seq<Fill>, i: nat)
    requires a != [] && multiset(a) == multiset(b)
    requires i < |b| && b[i] == a[|a| - 1]
    ensures multiset(a[..|a| - 1]) == multiset(b[..i] + b[i + 1..])
  {
    assert a == a[..|a| - 1] + [b[i]];
    assert b == b[..i] + ([b[i]] + b[i + 1..]);
    assert multiset(a) == multiset(a[..|a| - 1]) + multiset{b[i]};
    assert multiset(b) == multiset(b[..i]) + (multiset{b[i]} + multiset(b[i + 1..]));
    assert multiset(b[..i] + b[i + 1..]) == multiset(b[..i]) + multiset(b[i + 1..]);
    assert multiset(b) - multiset{b[i]} == multiset(b[..i] + b[i + 1..]);
    assert multiset(a) - multiset{b[i]} == multiset(a[..|a| - 1]);
  }

  /** The metrics depend on which fills happened, not on the order they are listed in. */
  lemma {:induction false} TallyPermutation(a: seq<Fill>, b: seq<Fill>)
    requires multiset(a) == multiset(b)
    ensures TallyFills(a) == TallyFills(b)
    decreases |a|
  {
    if a == [] {
      assert |multiset(b)| == 0;
    } else {
      assert a[|a| - 1] in multiset(b);
      var i :| 0 <= i < |b| && b[i] == a[|a| - 1];
      RemoveOne(a, b, i);
      TallyPermutation(a[..|a| - 1], b[..i] + b[i + 1..]);
      TallyMoveToEnd(b, i);
    }
  }

  // ---- Mark-to-market identity ------------------------------------------------------------------

  /** How an exchange account books one owned fill: (BTC, USDT). */
  function Book(balance: (real, real), f: Fill): (real, real) {
    if f.client.Foreign? then balance else
      var base := if f.side.BuySide? then balance.0 + f.quantity else balance.0 - f.quantity;
      var quote := if f.side.BuySide? then balance.1 - f.quote else balance.1 + f.quote;
      (if f.feeAsset.BaseFee? then base - f.commission else base,
       if f.feeAsset.QuoteFee? then quote - f.commission else quote)
  }

  function BookAll(opening: (real, real), fills: seq<Fill>): (real, real) {
    if fills == [] then opening else Book(BookAll(opening, fills[..|fills| - 1]), fills[|fills| - 1])
  }

  /** USDT commission the account paid that the tally did not count as a cash fee. */
  function UncountedCashFees(fills: seq<Fill>): real {
    if fills == [] then 0.0 else
      var f := fills[|fills| - 1];
      UncountedCashFees(fills[..|fills| - 1])
      + (if f.client.Owned? && f.feeAsset.QuoteFee? then f.commission - FeeQuote(f) else 0.0)
  }

  lemma {:induction false} BooksMatchTally(opening: (real, real), fills: seq<Fill>)
    ensures var t := TallyFills(fills);
            BookAll(opening, fills) ==
            (opening.0 + t.Owned(), opening.1 + t.sellQuote - t.buyQuote - t.cashFees - UncountedCashFees(fills))
  {
    if fills != [] {
      BooksMatchTally(opening, fills[..|fills| - 1]);
    }
  }

  /** What an account gained between two balances when BTC is valued at `mark`. */
  function Gain(opening: (real, real), closing: (real, real), mark: real): real {
    (closing.1 - opening.1) + (closing.0 - opening.0) * mark
  }

  lemma PnlIsGain(opening: (real, real), closing: (real, real), t: Tally, uncounted: real, mark: real)
    requires closing == (opening.0 + t.Owned(), opening.1 + t.sellQuote - t.buyQuote - t.cashFees - uncounted)
    ensures t.Pnl(mark) == Gain(opening, closing, mark) + uncounted
  {
    assert closing.0 - opening.0 == t.Owned();
  }

  /**
    ownerPnl is the change in USDT plus the change in BTC at the mark, BTC fees counted once and
    USDT fees once -- exactly when every USDT commission was valued at what the account paid.
  */
  lemma MarkToMarketIdentity(opening: (real, real), truth: AccountTruth)
    ensures MetricsOf(truth).ownerPnl == Gain(opening, BookAll(opening, truth.fills), truth.markPrice)
            <==> UncountedCashFees(truth.fills) == 0.0
  {
    BooksMatchTally(opening, truth.fills);
    PnlIsGain(opening, BookAll(opening, truth.fills), TallyFills(truth.fills), UncountedCashFees(truth.fills), truth.markPrice);
  }

  /**
    ownerLoss is zero exactly when the account did not lose at the mark, and otherwise what it lost --
    each USDT commission taken at the value the fill states for it.
  */
  lemma LossIsWhatWasLost(opening: (real, real), truth: AccountTruth)
    ensures var gain := Gain(opening, BookAll(opening, truth.fills), truth.markPrice) + UncountedCashFees(truth.fills);
            && (MetricsOf(truth).ownerLoss == 0.0 <==> gain >= 0.0)
            && (gain < 0.0 ==> MetricsOf(truth).ownerLoss == -gain)
            && MetricsOf(truth).ownerPnl == gain
  {
    BooksMatchTally(opening, truth.fills);
    PnlIsGain(opening, BookAll(opening, truth.fills), TallyFills(truth.fills), UncountedCashFees(truth.fills), truth.markPrice);
  }

  /** The owned quantity is what the account's BTC balance changed by. */
  lemma OwnedIsTheChange(opening: (real, real), truth: AccountTruth)
    ensures MetricsOf(truth).ownedQuantity == BookAll(opening, truth.fills).0 - opening.0
  {
    BooksMatchTally(opening, truth.fills);
  }

  // ---- What the other metrics say of the fills ----------------------------------------------------

  lemma {:induction false} TallyExact(fills: seq<Fill>)
    ensures TallyFills(fills).exact <==> forall f :: f in fills && f.client.Owned? ==> f.feeQuoteExact
  {
    if fills != [] {
      var rest, last := fills[..|fills| - 1], fills[|fills| - 1];
      assert fills == rest + [last];
      TallyExact(rest);
    }
  }

  /** Fees are exact exactly when the valuation is complete and every owned fill states its fee's value exactly. */
  lemma FeesAreExact(truth: AccountTruth)
    ensures MetricsOf(truth).feesExact <==>
              truth.feeValuationComplete && forall f :: f in truth.fills && f.client.Owned? ==> f.feeQuoteExact
  {
    TallyExact(truth.fills);
  }

  /** What the owned BUY fills cost, added up from the first to the last. */
  function PaidForBuys(fills: seq<Fill>): real {
    if fills == [] then 0.0 else
      (if fills[0].client.Owned? && fills[0].side.BuySide? then fills[0].quote else 0.0) + PaidForBuys(fills[1..])
  }

  lemma {:induction false} PaidAppend(fills: seq<Fill>, f: Fill)
    ensures PaidForBuys(fills + [f]) == PaidForBuys(fills) + (if f.client.Owned? && f.side.BuySide? then f.quote else 0.0)
  {
    if fills == [] {
      assert ([] + [f])[1..] == [];
    } else {
      PaidAppend(fills[1..], f);
      assert (fills + [f])[1..] == fills[1..] + [f];
    }
  }

  lemma {:induction false} BuyQuoteIsPaid(fills: seq<Fill>)
    ensures TallyFills(fills).buyQuote == PaidForBuys(fills)
  {
    if fills != [] {
      var rest, last := fills[..|fills| - 1], fills[|fills| - 1];
      BuyQuoteIsPaid(rest);
      PaidAppend(rest, last);
      assert fills == rest + [last];
    }
  }

  /** The stated value of the owned fees, added up from the first to the last. */
  function StatedFees(fills: seq<Fill>): real {
    if fills == [] then 0.0 else
      (if fills[0].client.Owned? && fills[0].feeQuoteExact then fills[0].feeQuoteValue else 0.0) + StatedFees(fills[1..])
  }

  lemma {:induction false} StatedAppend(fills: seq<Fill>, f: Fill)
    ensures StatedFees(fills + [f]) == StatedFees(fills) + (if f.client.Owned? && f.feeQuoteExact then f.feeQuoteValue else 0.0)
  {
    if fills == [] {
      assert ([] + [f])[1..] == [];
    } else {
      StatedAppend(fills[1..], f);
      assert (fills + [f])[1..] == fills[1..] + [f];
    }
  }

  lemma {:induction false} FeesAreStated(fills: seq<Fill>)
    ensures TallyFills(fills).feesQuote == StatedFees(fills)
  {
    if fills != [] {
      var rest, last := fills[..|fills| - 1], fills[|fills| - 1];
      FeesAreStated(rest);
      StatedAppend(rest, last);
      assert fills == rest + [last];
    }
  }

  /** Which fills are refused: an owned fill without quantity or price, with a negative fee, or with another's trade id. */
  lemma AcceptableExactly(fills: seq<Fill>)
    ensures AcceptableFills(fills) <==>
              && (forall f :: f in fills && f.client.Owned? ==>
                    && 0.0 < f.quantity && 0.0 < f.quote && 0.0 <= f.commission
                    && (f.feeQuoteExact ==> 0.0 <= f.feeQuoteValue))
              && (forall i, j :: 0 <= i < |fills| && 0 <= j < |fills| && i != j && fills[i].client.Owned? && fills[j].client.Owned? ==>
                    fills[i].tradeId != fills[j].tradeId)
  {}
}
