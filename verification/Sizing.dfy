/** Rounding a contract quantity to the precision of both exchanges. */
module Sizing {
  import opened Numbers

  function Times(k: int, step: real): real { k as real * step }

  /** Rounding down to a multiple of the step. */
  function FloorTo(raw: real, step: real): real
    requires step != 0.0
  {
    Times((raw / step).Floor, step)
  }

  /** The quantity both legs are placed with. */
  function ContractQuantity(raw: real, longStep: real, shortStep: real): real
    requires longStep != 0.0 && shortStep != 0.0
  {
    Min(FloorTo(raw, longStep), FloorTo(raw, shortStep))
  }

  ghost predicate MultipleOf(x: real, step: real) { exists k: int :: x == Times(k, step) }

  lemma TimesMonotone(m: int, n: int, step: real)
    requires m <= n && step > 0.0
    ensures Times(m, step) <= Times(n, step) && Times(n + 1, step) == Times(n, step) + step
  {
    assert (n - m) as real * step >= 0.0;
  }

  lemma FloorToProperties(raw: real, step: real)
    requires step > 0.0
    ensures FloorTo(raw, step) <= raw < FloorTo(raw, step) + step
    ensures MultipleOf(FloorTo(raw, step), step)
  {
    Quotient(raw, step);
    FloorBand(raw, raw / step, (raw / step).Floor, step);
  }

  lemma FloorBand(raw: real, q: real, k: int, step: real)
    requires k as real <= q < (k + 1) as real && step > 0.0 && raw == q * step
    ensures Times(k, step) <= raw < Times(k, step) + step
  {
    TimesMonotone(k, k, step);
    Scaled(k as real, q, step);
    Scaled(q, (k + 1) as real, step);
  }

  lemma Quotient(x: real, y: real)
    requires y > 0.0
    ensures x / y * y == x && (x >= 0.0 ==> x / y >= 0.0)
  {
  }

  lemma Scaled(x: real, y: real, step: real)
    requires x <= y && step > 0.0
    ensures x * step <= y * step
    ensures x < y ==> x * step < y * step
  {
    if x < y { assert (y - x) * step > 0.0; }
  }

  /** No multiple of the step at most `raw` lies above the rounded value. */
  lemma FloorToLargest(raw: real, step: real, x: real)
    requires step > 0.0 && MultipleOf(x, step) && x <= raw
    ensures x <= FloorTo(raw, step)
  {
    var m: int :| x == Times(m, step);
    var n := (raw / step).Floor;
    FloorToProperties(raw, step);
    TimesMonotone(n, n, step);
    if m > n {
      TimesMonotone(n + 1, m, step);
      assert false;
    }
    TimesMonotone(m, n, step);
  }

  /** The quantity is positive exactly when the raw one reaches a whole step of either exchange. */
  lemma PositiveIff(raw: real, longStep: real, shortStep: real)
    requires longStep > 0.0 && shortStep > 0.0
    ensures ContractQuantity(raw, longStep, shortStep) > 0.0 <==> raw >= longStep && raw >= shortStep
  {
    FloorPositiveIff(raw, longStep);
    FloorPositiveIff(raw, shortStep);
  }

  lemma FloorPositiveIff(raw: real, step: real)
    requires step > 0.0
    ensures FloorTo(raw, step) > 0.0 <==> raw >= step
  {
    FloorToProperties(raw, step);
    assert step == Times(1, step) && Times(0, step) == 0.0;
    if raw >= step {
      FloorToLargest(raw, step, step);
    } else if (raw / step).Floor >= 1 {
      TimesMonotone(1, (raw / step).Floor, step);
      assert false;
    } else {
      TimesMonotone((raw / step).Floor, 0, step);
    }
  }

  /** The quantity never exceeds the raw one, so neither leg's notional exceeds the position size. */
  lemma NotionalWithinPosition(positionSize: real, longPrice: real, shortPrice: real, longStep: real, shortStep: real)
    requires longPrice > 0.0 && shortPrice > 0.0 && longStep > 0.0 && shortStep > 0.0 && positionSize > 0.0
    ensures var raw := positionSize / Max(longPrice, shortPrice);
            var quantity := ContractQuantity(raw, longStep, shortStep);
            quantity <= raw && quantity * longPrice <= positionSize && quantity * shortPrice <= positionSize
  {
    var top := Max(longPrice, shortPrice);
    var raw := positionSize / top;
    Quotient(positionSize, top);
    var quantity := ContractQuantity(raw, longStep, shortStep);
    FloorToProperties(raw, longStep);
    FloorToProperties(raw, shortStep);
    NotionalOfLeg(quantity, raw, longPrice, top);
    NotionalOfLeg(quantity, raw, shortPrice, top);
  }

  lemma NotionalOfLeg(quantity: real, raw: real, price: real, top: real)
    requires quantity <= raw && 0.0 < price <= top && raw >= 0.0
    ensures quantity * price <= raw * top
  {
    assert (raw - quantity) * price >= 0.0;
    assert raw * (top - price) >= 0.0;
  }

  /**
   With the coarser step a multiple of the finer one, the quantity is the largest that is valid on
   both exchanges, and it falls short of the raw quantity by less than the coarser step.
   */
  lemma LargestOnBoth(raw: real, coarse: real, fine: real)
    requires coarse > 0.0 && fine > 0.0 && MultipleOf(coarse, fine)
    ensures var quantity := ContractQuantity(raw, coarse, fine);
            && quantity == ContractQuantity(raw, fine, coarse)
            && MultipleOf(quantity, coarse) && MultipleOf(quantity, fine)
            && raw - coarse < quantity <= raw
            && forall x :: MultipleOf(x, coarse) && MultipleOf(x, fine) && x <= raw ==> x <= quantity
  {
    FloorToProperties(raw, coarse);
    FloorToProperties(raw, fine);
    MultipleTransitive(FloorTo(raw, coarse), coarse, fine);
    FloorToLargest(raw, fine, FloorTo(raw, coarse));
    forall x | MultipleOf(x, coarse) && x <= raw ensures x <= FloorTo(raw, coarse) {
      FloorToLargest(raw, coarse, x);
    }
  }

  lemma MultipleTransitive(x: real, y: real, z: real)
    requires MultipleOf(x, y) && MultipleOf(y, z)
    ensures MultipleOf(x, z)
  {
    var j: int :| x == Times(j, y);
    var k: int :| y == Times(k, z);
    assert (j * k) as real == j as real * k as real;
    assert x == Times(j * k, z);
  }

  /**
   The rounding yields a quantity valid on both exchanges for every raw quantity exactly when one
   step is a multiple of the other; with any other pair of steps the finer exchange's rounding of
   the coarser step is already refused by the coarser exchange.
   */
  lemma ValidOnBothExactly(longStep: real, shortStep: real)
    requires longStep > 0.0 && shortStep > 0.0
    ensures (forall raw: real {:trigger ContractQuantity(raw, longStep, shortStep)} :: raw >= 0.0 ==>
               MultipleOf(ContractQuantity(raw, longStep, shortStep), longStep) &&
               MultipleOf(ContractQuantity(raw, longStep, shortStep), shortStep))
            <==> MultipleOf(longStep, shortStep) || MultipleOf(shortStep, longStep)
  {
    if MultipleOf(longStep, shortStep) || MultipleOf(shortStep, longStep) {
      forall raw: real | raw >= 0.0
        ensures MultipleOf(ContractQuantity(raw, longStep, shortStep), longStep)
        ensures MultipleOf(ContractQuantity(raw, longStep, shortStep), shortStep)
      {
        if MultipleOf(longStep, shortStep) {
          LargestOnBoth(raw, longStep, shortStep);
        } else {
          LargestOnBoth(raw, shortStep, longStep);
        }
      }
    } else if longStep <= shortStep {
      CoarseStepRefused(longStep, shortStep);
      var _ := ContractQuantity(shortStep, longStep, shortStep);
    } else {
      CoarseStepRefused(shortStep, longStep);
      var _ := ContractQuantity(longStep, longStep, shortStep);
    }
  }

  lemma CoarseStepRefused(fine: real, coarse: real)
    requires 0.0 < fine <= coarse && !MultipleOf(coarse, fine)
    ensures !MultipleOf(Min(FloorTo(coarse, fine), FloorTo(coarse, coarse)), coarse)
    ensures !MultipleOf(Min(FloorTo(coarse, coarse), FloorTo(coarse, fine)), coarse)
  {
    FloorToProperties(coarse, fine);
    FloorToProperties(coarse, coarse);
    assert fine == Times(1, fine) && coarse == Times(1, coarse);
    FloorToLargest(coarse, fine, fine);
    FloorToLargest(coarse, coarse, coarse);
    var c := FloorTo(coarse, fine);
    assert fine <= c < coarse;
    if MultipleOf(c, coarse) {
      var k: int :| c == Times(k, coarse);
      if k >= 1 {
        TimesMonotone(1, k, coarse);
        assert false;
      }
      TimesMonotone(k, 0, coarse);
      assert false;
    }
  }
}
