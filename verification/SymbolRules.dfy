/** Exchange filters: how an owned quantity is turned into an orderable one (SymbolRules). */
module SymbolFilters {
  import opened FunctionalVocabulary

  datatype SymbolRules = SymbolRules(
    minQuantity: real,
    maxQuantity: real,
    stepSize: real,
    minNotional: real,
    maxNotional: real,
    minNotionalApplies: bool,
    maxNotionalApplies: bool,
    referencePrice: real)
  {
    /** What SymbolRules.parse demands of the exchange-info truth. */
    predicate Parsed() {
      && 0.0 < minQuantity <= maxQuantity && 0.0 < stepSize
      && 0.0 < minNotional <= maxNotional && 0.0 < referencePrice
      && (minNotionalApplies ==> minNotional <= MAX_ORDER_NOTIONAL)
    }

    /** Decimal quantity over step, truncated toward zero, times step. */
    function FloorQuantity(quantity: real): real
      requires Parsed()
    {
      Truncate(quantity / stepSize) as real * stepSize
    }

    predicate BuyNotionalAllowed(notional: real) {
      && (minNotionalApplies ==> minNotional <= notional)
      && (maxNotionalApplies ==> notional <= maxNotional)
      && notional <= MAX_ORDER_NOTIONAL
    }

    function NormalizeFlatten(quantity: real): Reply<real>
      requires Parsed()
    {
      var normalized := FloorQuantity(quantity);
      if normalized <= 0.0 || normalized < minQuantity then Blocked("owned flatten quantity is below minQty")
      else if normalized > maxQuantity then Blocked("owned flatten quantity exceeds maxQty")
      else if minNotionalApplies && normalized * referencePrice < minNotional then Blocked("owned flatten is below minNotional")
      else if maxNotionalApplies && normalized * referencePrice > maxNotional then Blocked("owned flatten exceeds market maxNotional")
      else Done(normalized)
    }

    function UnorderableResidual(quantity: real, markPrice: real): Reply<bool>
      requires Parsed()
    {
      if quantity < 0.0 || markPrice <= 0.0 then Blocked("owned residual/price is invalid")
      else if quantity == 0.0 then Done(true)
      else
        var orderable := FloorQuantity(quantity);
        Done(
          orderable <= 0.0
          || orderable < minQuantity
          || (minNotionalApplies && orderable * referencePrice < minNotional))
    }
  }

  function Truncate(x: real): int { if x >= 0.0 then x.Floor else -((-x).Floor) }

  lemma ScaleOrder(a: real, b: real, step: real)
    requires step > 0.0
    ensures a <= b <==> a * step <= b * step
  {}

  lemma FractionOfStep(fraction: real, step: real)
    requires step > 0.0 && fraction < 1.0
    ensures fraction * step < step
  {
    assert (1.0 - fraction) * step > 0.0;
  }

  lemma ScaledDifference(a: real, b: real, step: real)
    ensures (a - b) * step == a * step - b * step
  {}

  lemma WithinOneStep(ratio: real, whole: real, quantity: real, step: real)
    requires step > 0.0 && ratio * step == quantity
    requires ratio < whole + 1.0
    ensures quantity < whole * step + step
  {
    var fraction := ratio - whole;
    FractionOfStep(fraction, step);
    ScaledDifference(ratio, whole, step);
    assert fraction * step < step;
    assert quantity - whole * step == fraction * step;
  }

  lemma ScaledFloor(ratio: real, quantity: real, step: real)
    requires quantity >= 0.0 && step > 0.0 && ratio * step == quantity
    ensures ratio >= 0.0
    ensures 0.0 <= ratio.Floor as real * step <= quantity < ratio.Floor as real * step + step
  {
    ScaleOrder(0.0, ratio, step);
    ScaleOrder(ratio.Floor as real, ratio, step);
    ScaleOrder(0.0, ratio.Floor as real, step);
    WithinOneStep(ratio, ratio.Floor as real, quantity, step);
  }

  lemma ScaledFloorIsLargest(ratio: real, quantity: real, step: real, n: int)
    requires step > 0.0 && ratio * step == quantity
    requires n as real * step <= quantity
    ensures n <= ratio.Floor && n as real * step <= ratio.Floor as real * step
  {
    ScaleOrder(n as real, ratio, step);
    ScaleOrder(n as real, ratio.Floor as real, step);
  }

  /** Whole steps below, at and above a nonnegative quantity. */
  lemma WholeSteps(quantity: real, step: real, n: int)
    requires quantity >= 0.0 && step > 0.0
    ensures var whole := (quantity / step).Floor;
            && quantity / step >= 0.0
            && 0 <= whole
            && 0.0 <= whole as real * step <= quantity < whole as real * step + step
            && (n as real * step <= quantity ==> n <= whole && n as real * step <= whole as real * step)
  {
    assert quantity / step * step == quantity;
    ScaledFloor(quantity / step, quantity, step);
    if n as real * step <= quantity {
      ScaledFloorIsLargest(quantity / step, quantity, step, n);
    }
  }

  lemma FloorBounds(quantity: real, step: real, floor: real, n: int)
    requires quantity >= 0.0 && step > 0.0 && floor == Truncate(quantity / step) as real * step
    ensures 0.0 <= floor <= quantity < floor + step
    ensures n as real * step <= quantity ==> n as real * step <= floor
  {
    WholeSteps(quantity, step, n);
  }

  /** The largest whole number of steps that does not exceed a nonnegative quantity. */
  lemma FloorIsLargestMultiple(rules: SymbolRules, quantity: real, n: int)
    requires rules.Parsed() && quantity >= 0.0
    ensures 0.0 <= rules.FloorQuantity(quantity) <= quantity < rules.FloorQuantity(quantity) + rules.stepSize
    ensures n as real * rules.stepSize <= quantity ==> n as real * rules.stepSize <= rules.FloorQuantity(quantity)
  {
    FloorBounds(quantity, rules.stepSize, rules.FloorQuantity(quantity), n);
  }

  lemma FloorOfMultiple(rules: SymbolRules, n: nat)
    requires rules.Parsed()
    ensures rules.FloorQuantity(n as real * rules.stepSize) == n as real * rules.stepSize
  {
    assert n as real * rules.stepSize / rules.stepSize == n as real;
  }

  /**
    Within the max filters a positive owned residue is either provably unorderable dust or accepted
    by the flatten normaliser: never both, never neither.  Outside them it is neither, so the
    hypothesis is exactly what the dichotomy needs.
  */
  lemma DustOrFlattenable(rules: SymbolRules, owned: real, mark: real)
    requires rules.Parsed() && owned > 0.0 && mark > 0.0
    ensures var dust := rules.UnorderableResidual(owned, mark);
            var flat := rules.NormalizeFlatten(owned);
            var orderable := rules.FloorQuantity(owned);
            && dust.Done?
            && !(dust.value && flat.Done?)
            && ((dust.value || flat.Done?) <==>
                  dust.value || (orderable <= rules.maxQuantity
                                 && (rules.maxNotionalApplies ==> orderable * rules.referencePrice <= rules.maxNotional)))
  {
    FloorIsLargestMultiple(rules, owned, 0);
  }

  /** A flatten never sells more than is owned, and once filled leaves unorderable dust. */
  lemma FlattenProgress(rules: SymbolRules, owned: real, mark: real)
    requires rules.Parsed() && owned >= 0.0 && mark > 0.0
    requires rules.NormalizeFlatten(owned).Done?
    ensures var sold := rules.NormalizeFlatten(owned).value;
            && 0.0 < sold <= owned < sold + rules.stepSize
            && rules.FloorQuantity(sold) == sold
            && rules.UnorderableResidual(owned - sold, mark) == Done(true)
  {
    var whole := (owned / rules.stepSize).Floor;
    WholeSteps(owned, rules.stepSize, 0);
    assert rules.NormalizeFlatten(owned).value == whole as real * rules.stepSize;
    FloorOfMultiple(rules, whole);
    LessThanStepIsNothing(rules, owned - whole as real * rules.stepSize);
  }

  lemma LessThanStepIsNothing(rules: SymbolRules, rest: real)
    requires rules.Parsed() && 0.0 <= rest < rules.stepSize
    ensures rules.FloorQuantity(rest) == 0.0
  {
    var whole := (rest / rules.stepSize).Floor;
    WholeSteps(rest, rules.stepSize, 1);
    LessThanOneStep(whole, rules.stepSize, whole as real * rules.stepSize);
  }

  lemma LessThanOneStep(whole: int, step: real, part: real)
    requires step > 0.0 && part == whole as real * step && part < step
    ensures whole < 1
  {
    ScaleOrder(1.0, whole as real, step);
  }

  // ---- What the filters let through ----------------------------------------------------------------

  /** Cutting the quantity down to the step size leaves this many steps. */
  predicate StepsIn(rules: SymbolRules, quantity: real, whole: nat) {
    whole as real * rules.stepSize <= quantity < whole as real * rules.stepSize + rules.stepSize
  }

  /** The filters of a market order, on a quantity of whole steps. */
  predicate Tradable(rules: SymbolRules, quantity: real) {
    && rules.minQuantity <= quantity <= rules.maxQuantity
    && (rules.minNotionalApplies ==> rules.minNotional <= quantity * rules.referencePrice)
    && (rules.maxNotionalApplies ==> quantity * rules.referencePrice <= rules.maxNotional)
  }

  lemma SameSteps(n: int, m: int, step: real, quantity: real)
    requires step > 0.0 && n as real * step <= quantity < m as real * step + step
    ensures n <= m
  {
    ScaleOrder((m + 1) as real, n as real, step);
    assert (m + 1) as real * step == m as real * step + step;
  }

  lemma FloorIsSteps(rules: SymbolRules, quantity: real, whole: nat)
    requires rules.Parsed() && StepsIn(rules, quantity, whole) && quantity >= 0.0
    ensures rules.FloorQuantity(quantity) == whole as real * rules.stepSize
  {
    var steps := (quantity / rules.stepSize).Floor;
    WholeSteps(quantity, rules.stepSize, 0);
    SameSteps(whole, steps, rules.stepSize, quantity);
    SameSteps(steps, whole, rules.stepSize, quantity);
  }

  lemma StepsExist(rules: SymbolRules, quantity: real) returns (whole: nat)
    requires rules.Parsed() && quantity >= 0.0
    ensures StepsIn(rules, quantity, whole) && rules.FloorQuantity(quantity) == whole as real * rules.stepSize
  {
    WholeSteps(quantity, rules.stepSize, 0);
    whole := (quantity / rules.stepSize).Floor;
  }

  lemma NegativeFloor(quantity: real, step: real)
    requires quantity < 0.0 && step > 0.0
    ensures Truncate(quantity / step) as real * step <= 0.0
  {
    assert quantity / step * step == quantity;
    ScaleOrder(0.0, quantity / step, step);
    ScaleOrder(Truncate(quantity / step) as real, 0.0, step);
  }

  /** The flatten normaliser sells exactly the whole steps of what is owned, and only if the filters let them through. */
  lemma NormalizedExactly(rules: SymbolRules, quantity: real, sold: real)
    requires rules.Parsed()
    ensures rules.NormalizeFlatten(quantity) == Done(sold) <==>
              exists whole: nat :: StepsIn(rules, quantity, whole) && sold == whole as real * rules.stepSize && Tradable(rules, sold)
  {
    if quantity < 0.0 {
      NegativeFloor(quantity, rules.stepSize);
      forall whole: nat ensures !StepsIn(rules, quantity, whole) { ScaleOrder(0.0, whole as real, rules.stepSize); }
    } else {
      var steps := StepsExist(rules, quantity);
      forall whole: nat | StepsIn(rules, quantity, whole) ensures rules.FloorQuantity(quantity) == whole as real * rules.stepSize {
        FloorIsSteps(rules, quantity, whole);
      }
    }
  }

  /** What a residue must be to count as dust: nothing, or whole steps too few or too cheap for an order. */
  lemma DustExactly(rules: SymbolRules, quantity: real, mark: real)
    requires rules.Parsed()
    ensures var dust := rules.UnorderableResidual(quantity, mark);
            && (dust.Blocked? <==> quantity < 0.0 || mark <= 0.0)
            && (dust == Done(true) <==>
                  && quantity >= 0.0 && mark > 0.0
                  && exists whole: nat :: StepsIn(rules, quantity, whole)
                       && var orderable := whole as real * rules.stepSize;
                          orderable < rules.minQuantity
                          || (rules.minNotionalApplies && orderable * rules.referencePrice < rules.minNotional))
  {
    if quantity >= 0.0 {
      var steps := StepsExist(rules, quantity);
      forall whole: nat | StepsIn(rules, quantity, whole) ensures rules.FloorQuantity(quantity) == whole as real * rules.stepSize {
        FloorIsSteps(rules, quantity, whole);
      }
    }
  }
}
