/**
 * Strategy comparison for two assets (`compare` in defi/defi_tools.py):
 * holding both assets, staking each in its own single-asset pool, or providing
 * both to a two-asset farm. Inputs are percentages (10 means 10%); reward and
 * fee rates are per day; the three returns come back as fractions.
 *
 * The source returns the three returns formatted as percentage strings; the
 * model returns the exact reals. Python raises an exception on two inputs;
 * the model returns them as `Err` values instead.
 */
module StrategyComparator {
  import opened ImpermanentLoss

  datatype Best = Farm | Stake

  /** The arguments of `compare`, in the source's order. */
  datatype StrategyInputs = StrategyInputs(
    days: real,
    varA: real,
    varB: real,
    rwPoolA: real,
    rwPoolB: real,
    rwPoolAB: real,
    feesAB: real)

  /** The returned dictionary, with the returns as fractions instead of strings. */
  datatype StrategyResult = StrategyResult(buyHold: real, stake: real, farm: real, best: Best)

  /** Why `compare` raises instead of returning. */
  datatype CompareError =
    | DivisionByZero  // asset B lost exactly 100%: the price ratio divides by zero
    | ComplexRoot     // the price ratio is negative: `x**0.5` is complex, and either the
                      // comparison `farm > stake` raises or, at a ratio of -1, the loss
                      // itself divides by zero

  datatype Result<T> = Ok(value: T) | Err(error: CompareError)

  /** The relative move of A against B, (1 + varA%) / (1 + varB%). */
  function PriceRatio(inp: StrategyInputs): real
    requires inp.varB != -100.0
  {
    (inp.varA / 100.0 + 1.0) / (inp.varB / 100.0 + 1.0)
  }

  /** `root` is the square root the source takes of the price ratio, whenever
      `compare` gets as far as taking it. */
  predicate RootOfRatio(inp: StrategyInputs, root: real) {
    inp.varB != -100.0 && PriceRatio(inp) >= 0.0 ==> IsSqrt(root, PriceRatio(inp))
  }

  /** The price ratio is negative exactly when one asset lost more than 100% and
      the other did not. */
  lemma NegativeRatio(inp: StrategyInputs)
    requires inp.varB != -100.0
    ensures PriceRatio(inp) < 0.0 <==>
              (inp.varA < -100.0 && inp.varB > -100.0) || (inp.varA > -100.0 && inp.varB < -100.0)
  {
    var a := inp.varA / 100.0 + 1.0;
    var b := inp.varB / 100.0 + 1.0;
    assert b != 0.0;
    if a < 0.0 && b > 0.0 {
      assert a / b < 0.0;
    } else if a > 0.0 && b < 0.0 {
      assert a / b < 0.0;
    } else if a >= 0.0 && b > 0.0 {
      assert a / b >= 0.0;
    } else {
      assert a <= 0.0 && b < 0.0;
      assert a / b == (-a) / (-b);
      assert a / b >= 0.0;
    }
  }

  /** The price ratio is 1 exactly when both assets moved by the same percentage. */
  lemma RatioOneIff(inp: StrategyInputs)
    requires inp.varB != -100.0
    ensures PriceRatio(inp) == 1.0 <==> inp.varA == inp.varB
  {
    var a := inp.varA / 100.0 + 1.0;
    var b := inp.varB / 100.0 + 1.0;
    assert b != 0.0;
    assert PriceRatio(inp) * b == a;
    if inp.varA == inp.varB {
      assert a == b;
      assert a / b == 1.0;
    }
  }

  /**
   * `compare`: the returns of the three strategies and the better of staking
   * and farming. It fails exactly where Python raises; otherwise buy-and-hold
   * is the average of the two assets' returns and the farm is chosen only when
   * it beats staking strictly, so a tie goes to staking. The source writes the
   * loss out inline; it is the same expression as `iloss`, so `ILoss` stands
   * for it here.
   */
  function Compare(inp: StrategyInputs, root: real): (r: Result<StrategyResult>)
    requires RootOfRatio(inp, root)
    ensures inp.varB == -100.0 ==> r == Err(DivisionByZero)
    ensures r.Err? <==>
              inp.varB == -100.0
              || (inp.varA < -100.0 && inp.varB > -100.0)
              || (inp.varA > -100.0 && inp.varB < -100.0)
    ensures r.Err? && inp.varB != -100.0 ==> r.error == ComplexRoot
    ensures r.Ok? ==> r.value.buyHold == (inp.varA / 100.0 + inp.varB / 100.0) / 2.0
    ensures r.Ok? ==> (r.value.best == Farm <==> r.value.farm > r.value.stake)
  {
    if inp.varB / 100.0 + 1.0 == 0.0 then
      Err(DivisionByZero)
    else
      NegativeRatio(inp);
      var buyHold := (0.5 * inp.varA + 0.5 * inp.varB) / 100.0;
      var x := PriceRatio(inp);
      if x < 0.0 then
        Err(ComplexRoot)
      else
        var il := ILoss(x, root);
        var stake := buyHold + 0.5 * inp.days * (inp.rwPoolA / 100.0 + inp.rwPoolB / 100.0);
        var farm := buyHold * (1.0 + il) + inp.days * (inp.rwPoolAB / 100.0 + inp.feesAB / 100.0);
        Ok(StrategyResult(buyHold, stake, farm, if farm > stake then Farm else Stake))
  }

  /** The rewards and fees the farm accrues over the period, as a fraction. */
  function FarmRewards(inp: StrategyInputs): real {
    inp.days * (inp.rwPoolAB + inp.feesAB) / 100.0
  }

  /** The rewards the two single-asset pools accrue over the period, each on half the capital. */
  function StakeRewards(inp: StrategyInputs): real {
    inp.days * (inp.rwPoolA + inp.rwPoolB) / 200.0
  }

  /** Staking earns the buy-and-hold return plus the single-asset rewards, so with
      non-negative days and rates it never trails buy-and-hold. */
  lemma StakeAtLeastBuyHold(inp: StrategyInputs, root: real)
    requires RootOfRatio(inp, root) && Compare(inp, root).Ok?
    ensures Compare(inp, root).value.stake == Compare(inp, root).value.buyHold + StakeRewards(inp)
    ensures inp.days >= 0.0 && inp.rwPoolA >= 0.0 && inp.rwPoolB >= 0.0 ==>
              Compare(inp, root).value.stake >= Compare(inp, root).value.buyHold
  {
    var rates := inp.rwPoolA + inp.rwPoolB;
    assert 0.5 * inp.days * (inp.rwPoolA / 100.0 + inp.rwPoolB / 100.0) == inp.days * rates / 200.0;
    if inp.days >= 0.0 && rates >= 0.0 {
      MulLeft(inp.days, 0.0, rates);
    }
  }

  /**
   * Impermanent loss only ever shrinks the buy-and-hold part of the farm's
   * return towards zero: apart from the farm rewards, the farm earns something
   * between 0 and the buy-and-hold return. So a gain is never amplified and
   * a loss never deepened; with a non-negative buy-and-hold return the farm
   * earns at most buy-and-hold plus its rewards. The farm return itself is
   * buy-and-hold scaled by one plus the impermanent loss of the price ratio,
   * plus the farm's rewards and fees.
   */
  lemma FarmBetween(inp: StrategyInputs, root: real)
    requires RootOfRatio(inp, root) && Compare(inp, root).Ok?
    ensures inp.varB != -100.0 && PriceRatio(inp) >= 0.0
    ensures Compare(inp, root).value.farm
         == Compare(inp, root).value.buyHold * (1.0 + ILoss(PriceRatio(inp), root)) + FarmRewards(inp)
    ensures var res := Compare(inp, root).value;
      var pooled := res.farm - FarmRewards(inp);
      (res.buyHold >= 0.0 ==> 0.0 <= pooled <= res.buyHold)
      && (res.buyHold <= 0.0 ==> res.buyHold <= pooled <= 0.0)
  {
    var res := Compare(inp, root).value;
    NegativeRatio(inp);
    var x := PriceRatio(inp);
    var il := ILoss(x, root);
    var bh := res.buyHold;
    assert inp.days * (inp.rwPoolAB / 100.0 + inp.feesAB / 100.0) == FarmRewards(inp);
    assert res.farm - FarmRewards(inp) == bh * (1.0 + il);
    ScaleTowardZero(bh, 1.0 + il);
  }

  /** Scaling by a factor in [0, 1] moves a number towards zero without crossing it. */
  lemma ScaleTowardZero(v: real, k: real)
    requires 0.0 <= k <= 1.0
    ensures v >= 0.0 ==> 0.0 <= v * k <= v
    ensures v <= 0.0 ==> v <= v * k <= 0.0
  {
    MulLeft(if v >= 0.0 then v else -v, k, 1.0);
  }

  /** The farm gives up nothing to impermanent loss exactly when the assets moved
      together or the buy-and-hold return is zero. */
  lemma FarmLosslessIff(inp: StrategyInputs, root: real)
    requires RootOfRatio(inp, root) && Compare(inp, root).Ok?
    ensures Compare(inp, root).value.farm == Compare(inp, root).value.buyHold + FarmRewards(inp)
            <==> inp.varA == inp.varB || Compare(inp, root).value.buyHold == 0.0
  {
    var res := Compare(inp, root).value;
    NegativeRatio(inp);
    var x := PriceRatio(inp);
    var il := ILoss(x, root);
    var bh := res.buyHold;
    assert inp.days * (inp.rwPoolAB / 100.0 + inp.feesAB / 100.0) == FarmRewards(inp);
    assert res.farm - (bh + FarmRewards(inp)) == bh * il;
    RatioOneIff(inp);
    if bh != 0.0 && il != 0.0 {
      assert bh * il != 0.0;
    }
  }

  /** With no time elapsed and both assets moving alike, all three strategies
      return the same and the tie goes to staking. */
  lemma TieWhenNothingAccrues(inp: StrategyInputs, root: real)
    requires RootOfRatio(inp, root)
    requires inp.days == 0.0 && inp.varA == inp.varB && inp.varB != -100.0
    ensures Compare(inp, root).Ok?
    ensures var res := Compare(inp, root).value;
      res.buyHold == res.stake == res.farm == inp.varA / 100.0 && res.best == Stake
  {
    RatioOneIff(inp);
    SqrtOrder(root, 1.0, 1.0, 1.0);
    assert ILoss(1.0, root) == 0.0;
  }

  /** When both assets move alike there is no impermanent loss, and over a
      positive number of days the farm wins exactly when its daily rewards and
      fees beat the average of the two staking rates. */
  lemma FarmWinsWhenAssetsMoveTogether(inp: StrategyInputs, root: real)
    requires RootOfRatio(inp, root)
    requires inp.days > 0.0 && inp.varA == inp.varB && inp.varB != -100.0
    ensures Compare(inp, root).Ok?
    ensures Compare(inp, root).value.best == Farm <==>
              inp.rwPoolAB + inp.feesAB > (inp.rwPoolA + inp.rwPoolB) / 2.0
  {
    RatioOneIff(inp);
    var res := Compare(inp, root).value;
    var g := inp.rwPoolAB + inp.feesAB - (inp.rwPoolA + inp.rwPoolB) / 2.0;
    assert res.farm - res.stake == inp.days * g / 100.0;
    if g > 0.0 {
      MulPos(inp.days, g);
    } else {
      assert inp.days * (-g) >= 0.0;
    }
  }

  /**
   * A worked case: 30 days, A up 50%, B down 20%, no rewards or fees.
   * Buy-and-hold and staking both return 15%; the price ratio is 1.875, so the
   * farm loses a little to impermanent loss and staking wins.
   */
  lemma UnevenMoveFavoursStaking(root: real)
    requires IsSqrt(root, 1.875)
    ensures var r := Compare(StrategyInputs(30.0, 50.0, -20.0, 0.0, 0.0, 0.0, 0.0), root);
      r.Ok? && r.value.buyHold == 0.15 && r.value.stake == 0.15
      && r.value.farm < 0.15 && r.value.best == Stake
  {
    var inp := StrategyInputs(30.0, 50.0, -20.0, 0.0, 0.0, 0.0, 0.0);
    assert PriceRatio(inp) == 1.875;
    var il := ILoss(1.875, root);
    assert il < 0.0;
    assert 0.15 * (1.0 + il) < 0.15;
  }
}
