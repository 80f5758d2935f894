# Impermanent loss and strategy comparison, modelled in Dafny

This project models the two pure calculations at the core of the DeFi tools
package:

- `iloss(price_ratio)`: the impermanent loss of a two-asset constant-product
  liquidity pool, `2 * sqrt(r) / (1 + r) - 1`. Here `r` is the relative price
  move of asset A against asset B. The result is the fraction by which a pooled
  position trails simply holding the two assets.
- `compare(days, var_A, var_B, rw_pool_A, rw_pool_B, rw_pool_AB, fees_AB)`:
  the returns of three strategies for two assets, and which of the last two is
  better:
  - buy-and-hold;
  - staking each asset in its own single-asset pool;
  - providing both assets to a two-asset farm, which suffers impermanent loss
    but earns farm rewards and trading fees.

Both functions exist twice in the repository, in `defi/defi_tools.py` and in
`juanpy/max_min.py`. The code differs only in the name of the period (`days`
and `dias`). In both copies `compare` writes the loss out inline instead of
calling `iloss`. There are three modules:

- `ImpermanentLoss` (`iloss.dfy`): `iloss` and what is proved about it.
  - Its range: the loss lies in [-1, 0], is 0 exactly at a ratio of 1, and is
    -1 exactly at a ratio of 0.
  - A closed form: `-(sqrt r - 1)^2 / (1 + r)`.
  - Symmetry under `r -> 1/r`.
  - Monotonicity on either side of 1.
  - Its meaning for a constant-product pool. After arbitrage, the re-balanced
    reserves are worth `(1 + IL)` times the held ones.
- `StrategyComparator` (`compare.dfy`): `compare` from `defi/defi_tools.py`,
  with the inline loss replaced by a call to `ImpermanentLoss.ILoss`.
  - Its error cases.
  - How staking and farming relate to buy-and-hold.
  - When farming wins.
- `MaxMin` (`max_min.dfy`): the copy in `juanpy/max_min.py`, written the way
  both files write it: the parameter is `dias`, the loss stays inline, and the
  Python default arguments are kept. Its contracts say that it agrees
  with the other two modules, so every property proved there carries over.

Python's `x ** 0.5` has no counterpart on Dafny's `real`. Every member that
needs it takes the root as an extra argument (`root`, or `s1`, `s2`, `invRoot`
in lemmas about several ratios). `IsSqrt(s, x)` says `s >= 0` and
`s * s == x`. The members of `ImpermanentLoss`, and `MaxMin.ILoss` and
`MaxMin.ILossProperties`, require it directly. The `Compare` functions and the
lemmas about them require `RootOfRatio` instead: the root must satisfy `IsSqrt`
for the price ratio whenever that ratio is defined and non-negative, which is
when Python takes the root. The lemma `ImpermanentLoss.SqrtOrder` proves that
the root is unique, so no result depends on which witness is passed.

`compare` raises in Python on two kinds of input. The model returns an `Err`
value in both cases:

- `DivisionByZero`: `var_B == -100`, where the price ratio divides by zero.
- `ComplexRoot`: the price ratio is negative, i.e. one asset lost more than
  100% and the other did not. Python then computes a complex root. The
  comparison `farm > stake` raises a `TypeError`, or the loss itself divides by
  zero when the ratio is exactly -1.

A ratio of exactly 0 (`var_A == -100`) is accepted by the code and gives a loss
of -1. The model follows the code there.

## Model

| member | source | states |
|---|---|---|
| `ImpermanentLoss.ILoss` | defi/defi_tools.py:10-26 | the loss lies in [-1, 0]; it is 0 exactly when the price ratio is 1 and -1 exactly when the ratio is 0 |
| `ImpermanentLoss.SqrtOrder` | defi/defi_tools.py:26 | the non-negative square root taken by `**0.5` preserves order and is unique, so a result never depends on the witness passed for it |
| `ImpermanentLoss.AmGm` | defi/defi_tools.py:26 | `2 sqrt(r) / (1 + r)` lies in [0, 1], equals 1 only at r = 1 and equals 0 only at r = 0 |
| `ImpermanentLoss.ILossClosedForm` | defi/defi_tools.py:26 | the loss equals `-(sqrt r - 1)^2 / (1 + r)` |
| `ImpermanentLoss.ILossSymmetric` | defi/defi_tools.py:10-26 | a move by the factor r and a move by 1/r cost the same loss |
| `ImpermanentLoss.ILossDifference` | defi/defi_tools.py:26 | the difference of two losses is `2 (s2 - s1)(s1 s2 - 1) / ((1 + r1)(1 + r2))`, where s1 and s2 are the roots |
| `ImpermanentLoss.ILossDecreasingAboveOne` | defi/defi_tools.py:26 | for ratios 1 <= r1 <= r2 the loss at r2 is at least as deep as at r1 |
| `ImpermanentLoss.ILossIncreasingBelowOne` | defi/defi_tools.py:26 | for ratios r1 <= r2 <= 1 the loss at r1 is at least as deep as at r2 |
| `ImpermanentLoss.ConstantProductLoss` | defi/defi_tools.py:10-26 | reserves re-balanced along `x * y = k` to a price moved by the ratio are worth `(1 + loss)` times the original reserves held at the new price |
| `StrategyComparator.NegativeRatio` | defi/defi_tools.py:52 | the price ratio is negative exactly when one asset lost more than 100% and the other did not |
| `StrategyComparator.RatioOneIff` | defi/defi_tools.py:52 | the price ratio is 1 exactly when both assets moved by the same percentage |
| `StrategyComparator.Compare` | defi/defi_tools.py:32-59 | fails exactly when Python raises: division by zero at `var_B == -100`, a complex root when the ratio is negative (at a ratio of exactly -1 Python reports this as a division by zero, the model as `ComplexRoot`); otherwise buy-and-hold is the mean of the two moves, and the farm is chosen exactly when it beats staking strictly |
| `StrategyComparator.StakeAtLeastBuyHold` | defi/defi_tools.py:55 | staking earns buy-and-hold plus `days * (rw_A + rw_B) / 200`, so with non-negative days and rates it never trails buy-and-hold |
| `StrategyComparator.FarmBetween` | defi/defi_tools.py:53-56 | the farm return is buy-and-hold times `1 + iloss(x)` for the price ratio x, plus its rewards and fees; apart from those rewards and fees, the farm earns between 0 and the buy-and-hold return, so impermanent loss never amplifies a gain and never deepens a loss |
| `StrategyComparator.ScaleTowardZero` | defi/defi_tools.py:56 | the scaling helper `FarmBetween` uses: for any number v and any factor k in [0, 1], `v * k` lies between 0 and v |
| `StrategyComparator.FarmLosslessIff` | defi/defi_tools.py:51-56 | the farm earns exactly buy-and-hold plus its rewards and fees if and only if the two assets moved alike or buy-and-hold is zero |
| `StrategyComparator.TieWhenNothingAccrues` | defi/defi_tools.py:51-57 | with zero days and equal moves, all three returns equal the common move and the tie goes to staking |
| `StrategyComparator.FarmWinsWhenAssetsMoveTogether` | defi/defi_tools.py:55-57 | with equal moves over a positive number of days, the farm wins exactly when its daily rewards plus fees exceed the mean of the two staking rates |
| `StrategyComparator.UnevenMoveFavoursStaking` | defi/defi_tools.py:51-57 | over 30 days, with A up 50%, B down 20% and no rewards, buy-and-hold and staking both return 15%, the farm returns less, and staking wins |
| `MaxMin.ILoss` | juanpy/max_min.py:10-11 | this copy of `iloss` equals the loss of `ImpermanentLoss` and lies in [-1, 0] |
| `MaxMin.Compare` | juanpy/max_min.py:17-44 | this copy of `compare`, with its defaults and inline loss, fails in the same cases and returns the same four values as `StrategyComparator.Compare`; the farm is chosen exactly when it beats staking strictly |
| `MaxMin.ILossProperties` | juanpy/max_min.py:10-11 | this copy gives no loss at ratio 1, a loss above -1 for a positive ratio, and the same loss for r and 1/r |
| `MaxMin.TieWhenNothingAccrues` | juanpy/max_min.py:36-42 | with `dias` 0 and equal moves, this copy returns three equal values and chooses staking |
| `MaxMin.DefaultsGiveStake` | juanpy/max_min.py:17-42 | called with only the period and every other argument at its default, all three returns are 0 and staking is chosen |

## Left out

- Floating point: the model computes over exact reals. Rounding in `**0.5`, in `/` and in the comparison `farm > stake` is not modelled.
- The square root is a parameter constrained by `IsSqrt`, not computed.
- The complex result of `iloss` for a negative ratio is not modelled. `ImpermanentLoss.ILoss` requires a real square root of its ratio. In `compare` the negative case is the `ComplexRoot` error.
- The result's formatting as percentage strings with two decimals (defi/defi_tools.py:59, juanpy/max_min.py:44). The model returns the fractions themselves.
- Module imports and the pandas converter registration (defi/defi_tools.py:3-7, juanpy/max_min.py:3-7): side effects with no bearing on the two calculations.
- The docstring of `iloss` (defi/defi_tools.py:24) gives its example as a positive value. The code returns a non-positive one, and the model follows the code.
- The default argument values of `compare` in defi/defi_tools.py are not repeated in `StrategyComparator.Compare`, which takes one record of all seven inputs. `MaxMin.Compare` keeps them.
- Python's integer-or-float distinction for `days` and the rates is not modelled; all inputs are reals.
- The other tools of the repository (price history download, market data wrappers, charting and the pool surface simulator) are not part of this model.
