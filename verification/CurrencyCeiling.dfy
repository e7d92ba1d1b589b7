/**
  Turning a KRW limit into a native-currency ceiling that never rounds up (native_absolute_limits):
  an exact quotient, truncated to 18 decimals, then carried as a float.

  The nonnegative finite floats are an increasing sequence starting at zero; converting to float
  picks a nearest one, either one on a tie, and overflows beyond some bound.
*/
module CurrencyCeiling {
  import opened FunctionalVocabulary

  const UNITS := 1000000000000000000.0      // 18 decimals
  const MAX_BUFFER_BPS := 10000.0

  datatype Conversion = SameCurrency | Observed(rate: real, bufferBps: real) | Unusable

  datatype Limits = NoAuthority(reason: string) | Ready(ceiling: real, exact: real)
  {
    /** The cap the risk engine enforces; a blocked conversion has none. */
    function Cap(): real { if Ready? then ceiling else 0.0 }
  }

  predicate Usable(conversion: Conversion) {
    conversion.SameCurrency?
    || (conversion.Observed? && conversion.rate > 0.0 && 0.0 <= conversion.bufferBps <= MAX_BUFFER_BPS)
  }

  function BufferedRate(conversion: Conversion): (rate: real)
    requires Usable(conversion)
    ensures rate > 0.0 && (conversion.Observed? ==> rate >= conversion.rate)
  {
    if conversion.SameCurrency? then 1.0 else Buffered(conversion.rate, conversion.bufferBps / MAX_BUFFER_BPS)
  }

  function Buffered(rate: real, share: real): (buffered: real)
    requires rate > 0.0 && share >= 0.0
    ensures buffered >= rate
  {
    BufferOnlyRaises(rate, share);
    rate * (1.0 + share)
  }

  lemma BufferOnlyRaises(rate: real, share: real)
    requires rate > 0.0 && share >= 0.0
    ensures rate * (1.0 + share) >= rate
  {
    assert rate * share >= 0.0;
  }

  /** quantize(1e-18, ROUND_DOWN) of a nonnegative value. */
  function Truncated(x: real): real { (x * UNITS).Floor as real / UNITS }

  lemma TruncatedIsBelow(x: real)
    requires x >= 0.0
    ensures 0.0 <= Truncated(x) <= x < Truncated(x) + 1.0 / UNITS
  {}

  // ---- Floats ---------------------------------------------------------------------------------------------

  predicate Grid(floats: seq<real>) {
    && floats != [] && floats[0] == 0.0
    && forall i, j :: 0 <= i < j < |floats| ==> floats[i] < floats[j]
  }

  function Distance(a: real, b: real): real { if a < b then b - a else a - b }

  /** `rounded` is what converting `x` to float may give: a nearest float, or infinity past the bound. */
  predicate FloatOf(floats: seq<real>, overflowAt: real, x: real, rounded: Option<nat>) {
    match rounded
    case None => x >= overflowAt
    case Some(i) => i < |floats| && forall j :: 0 <= j < |floats| ==> Distance(floats[i], x) <= Distance(floats[j], x)
  }

  /** One step toward zero when the conversion went up; the source does this at most once. */
  function StepDown(floats: seq<real>, x: real, i: nat): (down: nat)
    requires Grid(floats) && i < |floats|
    ensures down <= i
  {
    if floats[i] > 0.0 && floats[i] > x then i - 1 else i
  }

  /** Once is enough: the result is the largest float that does not exceed the value. */
  lemma OneStepSuffices(floats: seq<real>, overflowAt: real, x: real, i: nat)
    requires Grid(floats) && x >= 0.0 && FloatOf(floats, overflowAt, x, Some(i))
    ensures var down := StepDown(floats, x, i);
            && 0.0 <= floats[down] <= x
            && forall j :: 0 <= j < |floats| && floats[j] <= x ==> floats[j] <= floats[down]
  {
    var down := StepDown(floats, x, i);
    if floats[i] > x {
      assert i > 0 && floats[i - 1] < floats[i];
      assert Distance(floats[i], x) <= Distance(floats[i - 1], x);
      forall j | 0 <= j < |floats| && floats[j] <= x ensures floats[j] <= floats[i - 1] {}
    } else {
      forall j | 0 <= j < |floats| && floats[j] <= x ensures floats[j] <= floats[i] {
        assert Distance(floats[i], x) <= Distance(floats[j], x);
      }
    }
  }

  // ---- The ceiling ------------------------------------------------------------------------------------------

  lemma QuotientNeverExceeds(limit: real, rate: real, ceiling: real)
    requires rate > 0.0 && limit >= 0.0 && 0.0 <= ceiling <= limit / rate
    ensures ceiling * rate <= limit
  {
    assert limit / rate * rate == limit;
    assert (limit / rate - ceiling) * rate >= 0.0;
  }

  lemma QuotientNonnegative(limit: real, rate: real)
    requires rate > 0.0 && limit >= 0.0
    ensures limit / rate >= 0.0
  {}

  lemma Transported(limit: real, rate: real, floats: seq<real>, overflowAt: real, i: nat, native: real, transported: real)
    requires Grid(floats) && limit >= 0.0 && rate > 0.0 && native == Truncated(limit / rate)
    requires FloatOf(floats, overflowAt, native, Some(i)) && transported == floats[StepDown(floats, native, i)]
    ensures WithinLimit(limit, rate, transported, native) && transported >= 0.0
    ensures transported <= native && forall f :: f in floats && f <= native ==> f <= transported
  {
    var quotient := limit / rate;
    QuotientNonnegative(limit, rate);
    TruncatedIsCutOff(quotient);
    OneStepSuffices(floats, overflowAt, native, i);
    QuotientNeverExceeds(limit, rate, transported);
  }

  /**
    `limit` is None when it does not parse as a nonnegative decimal.  `rounded` is the float conversion
    of the truncated quotient.  Whatever fails leaves a zero cap; otherwise the ceiling is the largest
    float not above the truncated quotient, and at the buffered rate it never buys more than the limit.
  */
  method NativeAbsoluteLimits(
    limit: Option<real>, supported: bool, conversion: Conversion, floats: seq<real>, overflowAt: real, rounded: Option<nat>)
    returns (result: Limits)
    requires Grid(floats) && (limit.Some? ==> limit.value >= 0.0)
    requires limit.Some? && Usable(conversion) ==>
               FloatOf(floats, overflowAt, Truncated(limit.value / BufferedRate(conversion)), rounded)
    ensures result.Ready? <==> limit.Some? && supported && Usable(conversion) && rounded.Some?
    ensures Usable(conversion) <==>
              conversion == SameCurrency || (conversion.Observed? && 0.0 < conversion.rate && 0.0 <= conversion.bufferBps <= 10000.0)
    ensures result.Ready? ==>
              && result.exact == Truncated(limit.value / BufferedRate(conversion))
              && result.ceiling in floats && result.ceiling <= result.exact
              && (forall f :: f in floats && f <= result.exact ==> f <= result.ceiling)
    ensures result.Ready? ==> CeilingInKrw(limit.value, conversion, result) && result.Cap() >= 0.0
    ensures !result.Ready? ==> result.Cap() == 0.0
  {
    if limit == None { return NoAuthority("absolute KRW limit is invalid"); }
    if !supported { return NoAuthority("broker/currency pair is unsupported"); }
    if !Usable(conversion) { return NoAuthority("conversion observation or buffer is unusable"); }
    if rounded == None { return NoAuthority("float overflow"); }
    result := ReadyCeiling(limit.value, conversion, floats, overflowAt, rounded.value);
  }

  /** The conversion that goes through. */
  method ReadyCeiling(limit: real, conversion: Conversion, floats: seq<real>, overflowAt: real, i: nat) returns (result: Limits)
    requires Grid(floats) && limit >= 0.0 && Usable(conversion)
    requires FloatOf(floats, overflowAt, Truncated(limit / BufferedRate(conversion)), Some(i))
    ensures result.Ready? && result.exact == Truncated(limit / BufferedRate(conversion))
    ensures result.ceiling in floats && result.ceiling <= result.exact
    ensures forall f :: f in floats && f <= result.exact ==> f <= result.ceiling
    ensures CeilingInKrw(limit, conversion, result) && result.ceiling >= 0.0
  {
    var rate := BufferedRate(conversion);
    var native := Truncated(limit / rate);
    var transported := floats[StepDown(floats, native, i)];
    Transported(limit, rate, floats, overflowAt, i, native, transported);
    PriceIsBuffered(limit, conversion, rate, transported, native);
    return Ready(transported, native);
  }

  /**
    The ceiling in the conversion's own terms.  A foreign currency is bought at the observed rate plus
    the saved buffer, in units of a ten-thousandth, and at that price never for more than the limit; the
    exact value is what the limit buys, cut off after 18 decimals.  The limit's own currency is taken as
    it is.
  */
  predicate CeilingInKrw(limit: real, conversion: Conversion, result: Limits)
    requires result.Ready?
  {
    match conversion
    case SameCurrency => WithinLimit(limit, 1.0, result.ceiling, result.exact)
    case Observed(rate, bps) =>
      && 0.0 < rate && 0.0 <= bps <= 10000.0
      && WithinLimit(limit, rate * (1.0 + bps / 10000.0), result.ceiling, result.exact)
    case Unusable => false
  }

  /** At this price the ceiling costs no more than the limit, and `exact` is what the limit buys. */
  predicate WithinLimit(limit: real, price: real, ceiling: real, exact: real) {
    price > 0.0 && ceiling * price <= limit && CutOff(limit / price, exact)
  }

  /** `cut` is `x` without what comes after its 18th decimal. */
  predicate CutOff(x: real, cut: real) {
    && cut <= x < cut + 0.000000000000000001
    && (cut * 1000000000000000000.0).Floor as real == cut * 1000000000000000000.0
  }

  lemma TruncatedIsCutOff(x: real)
    requires x >= 0.0
    ensures CutOff(x, Truncated(x)) && Truncated(x) >= 0.0
  {
    TruncatedIsBelow(x);
  }

  lemma BufferInBasisPoints(rate: real, bps: real)
    requires rate > 0.0 && 0.0 <= bps <= MAX_BUFFER_BPS
    ensures BufferedRate(Observed(rate, bps)) == rate * (1.0 + bps / 10000.0)
  {}

  lemma PriceIsBuffered(limit: real, conversion: Conversion, buffered: real, ceiling: real, native: real)
    requires Usable(conversion) && buffered == BufferedRate(conversion) && WithinLimit(limit, buffered, ceiling, native)
    ensures CeilingInKrw(limit, conversion, Ready(ceiling, native))
  {
    if conversion.Observed? {
      BufferInBasisPoints(conversion.rate, conversion.bufferBps);
      var price := conversion.rate * (1.0 + conversion.bufferBps / 10000.0);
      assert price == buffered;
      assert WithinLimit(limit, price, ceiling, native);
    }
  }
}
