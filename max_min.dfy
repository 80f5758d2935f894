/**
 * The copy of `iloss` and `compare` in juanpy/max_min.py. Its code differs from
 * defi/defi_tools.py only in the name of the period, `dias` instead of `days`;
 * both copies of `compare` write the loss out inline rather than calling
 * `iloss`. `StrategyComparator.Compare` replaces that inline expression with a
 * call to `ILoss`; this module keeps it inline, as both sources write it, and
 * keeps the Python defaults (every rate 0). Each function's contract says that
 * it agrees with the shared model in `ImpermanentLoss` and `StrategyComparator`,
 * so everything proved there holds for this copy too.
 */
module MaxMin {
  import ImpermanentLoss
  import opened StrategyComparator

  /** `iloss`; the result is the impermanent loss of the shared model. */
  function ILoss(priceRatio: real, root: real): (il: real)
    requires ImpermanentLoss.IsSqrt(root, priceRatio)
    ensures il == ImpermanentLoss.ILoss(priceRatio, root)
    ensures -1.0 <= il <= 0.0
  {
    2.0 * (root / (1.0 + priceRatio)) - 1.0
  }

  /**
   * `compare`, with the source's defaults: every variation and rate defaults to
   * 0. `root` is the square root of the price ratio and comes last; its default
   * 1 is that root when both variations keep their defaults. The result is
   * what the shared model computes for the same inputs.
   */
  function Compare(dias: real, varA: real := 0.0, varB: real := 0.0,
                   rwPoolA: real := 0.0, rwPoolB: real := 0.0,
                   rwPoolAB: real := 0.0, feesAB: real := 0.0,
                   root: real := 1.0): (r: Result<StrategyResult>)
    requires RootOfRatio(StrategyInputs(dias, varA, varB, rwPoolA, rwPoolB, rwPoolAB, feesAB), root)
    ensures var shared := StrategyComparator.Compare(
                            StrategyInputs(dias, varA, varB, rwPoolA, rwPoolB, rwPoolAB, feesAB), root);
      && r.Ok? == shared.Ok?
      && (r.Err? ==> r.error == shared.error)
      && (r.Ok? ==> r.value.buyHold == shared.value.buyHold && r.value.stake == shared.value.stake
                    && r.value.farm == shared.value.farm && r.value.best == shared.value.best)
    ensures r.Ok? ==> (r.value.best == Farm <==> r.value.farm > r.value.stake)
  {
    if varB / 100.0 + 1.0 == 0.0 then
      Err(DivisionByZero)
    else
      var buyHold := (0.5 * varA + 0.5 * varB) / 100.0;
      var x := (varA / 100.0 + 1.0) / (varB / 100.0 + 1.0);
      if x < 0.0 then
        Err(ComplexRoot)
      else
        var perdidaImpermanente := 2.0 * (root / (1.0 + x)) - 1.0;
        var stake := buyHold + 0.5 * dias * (rwPoolA / 100.0 + rwPoolB / 100.0);
        var farm := buyHold * (1.0 + perdidaImpermanente) + dias * (rwPoolAB / 100.0 + feesAB / 100.0);
        Ok(StrategyResult(buyHold, stake, farm, if farm > stake then Farm else Stake))
  }

  /** The two copies of `iloss` keep the properties of the shared model: no loss
      at a ratio of 1, a loss strictly above -1 for a positive ratio, and the
      same loss for a ratio and its reciprocal. */
  lemma ILossProperties(priceRatio: real, root: real, invRoot: real)
    requires priceRatio > 0.0
    requires ImpermanentLoss.IsSqrt(root, priceRatio)
    requires ImpermanentLoss.IsSqrt(invRoot, 1.0 / priceRatio)
    ensures ILoss(1.0, 1.0) == 0.0
    ensures -1.0 < ILoss(priceRatio, root) <= 0.0
    ensures ILoss(1.0 / priceRatio, invRoot) == ILoss(priceRatio, root)
  {
    ImpermanentLoss.ILossSymmetric(priceRatio, root, invRoot);
  }

  /** With no time elapsed and both assets moving alike, all three returns are
      equal and the tie goes to staking. */
  lemma TieWhenNothingAccrues(varA: real, varB: real, rwPoolA: real, rwPoolB: real,
                              rwPoolAB: real, feesAB: real, root: real)
    requires varA == varB && varB != -100.0
    requires RootOfRatio(StrategyInputs(0.0, varA, varB, rwPoolA, rwPoolB, rwPoolAB, feesAB), root)
    ensures var r := Compare(0.0, varA, varB, rwPoolA, rwPoolB, rwPoolAB, feesAB, root);
      r.Ok? && r.value.buyHold == r.value.stake == r.value.farm && r.value.best == Stake
  {
    StrategyComparator.TieWhenNothingAccrues(
      StrategyInputs(0.0, varA, varB, rwPoolA, rwPoolB, rwPoolAB, feesAB), root);
  }

  /** With every argument but the period left at its default, nothing moves and
      nothing accrues: all three returns are 0 and the tie goes to staking. */
  lemma DefaultsGiveStake(dias: real)
    ensures Compare(dias).Ok?
    ensures var res := Compare(dias).value;
      res.buyHold == 0.0 && res.stake == 0.0 && res.farm == 0.0 && res.best == Stake
  {
    var inp := StrategyInputs(dias, 0.0, 0.0, 0.0, 0.0, 0.0, 0.0);
    RatioOneIff(inp);
  }
}
