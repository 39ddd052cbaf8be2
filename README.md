# Better Compound Interest backends, modelled in Dafny

This project models the deterministic core of four small FastAPI services.
They chart personal-finance scenarios:

- **mortgage** (`POST /mortgage`). An annuity schedule with a fixed-rate
  period and a variable rate afterwards. The instalment can optionally be
  recalculated at the rate switch. Monthly overpayments and one-off lump
  sums reduce the balance. The schedule is compared with a baseline that has
  no extras, and the response carries dated labels, padded series and a
  summary.
- **compound** (`POST /simulate`, `POST /suggestions`). Monte-Carlo wealth
  paths with a yearly-growing contribution schedule. The response holds
  percentile bands, final-wealth statistics and the probability of reaching a
  target. It also holds the median path's maximum drawdown, the basis of its
  CAGR, and a list of heuristic suggestions. `/suggestions` solves the
  growing-annuity equation for the first-year contribution a target needs.
- **fire** (`POST /fire`). Accumulation and then retirement on one wealth
  path. Contributions and withdrawals rise with inflation once a year, and
  wealth is floored at zero. The response holds percentile bands, the
  survival probability and the median number of months the money lasts.
- **drawdown** (`POST /drawdown`). Price paths built from compounded growth
  factors. The response holds the drawdown below the running peak, its
  percentile bands, percentiles of each path's deepest drawdown, and how
  long the median path takes to recover from its trough.

Module layout:

- `numeric.dfy` (`Numeric`): sums, powers, minima and maxima, the running
  maximum, counting and shares, and percentiles.
- `calendar.dfy` (`Calendar`): `add_months`, which all four backends share,
  and the month labels.
- `mortgage.dfy` (`MortgageBackend`), `compound.dfy` (`CompoundBackend`),
  `fire.dfy` (`FireBackend`) and `drawdown.dfy` (`DrawdownBackend`): one
  module per backend.

How the outside world enters the model:

- The random growth factors `exp(drift + shock)` are an input of every
  simulation: `factors[i][t]` is path i's factor for period t + 1, and every
  factor is positive.
- `np.percentile` and `np.median` are a parameter
  `pct: (seq<real>, real) -> real`. The predicate `Numeric.WithinSample`
  assumes of it only what linear interpolation guarantees: every percentile
  lies between the sample's minimum and maximum.
- `date.today()` is a parameter.
- A Python exception is an `Option` that is `None`. This covers
  `ZeroDivisionError` in `_pmt`, a `date` whose year leaves 1..9999, and the
  division by `median_final + 1e-9`.
- The loops that update arrays are methods over Dafny arrays, proved against
  specification functions: the wealth matrices, the FIRE schedule, the
  extra-payment map, the payoff and recovery searches, and the
  time-to-zero loop.

## Model

| member | source | states |
|---|---|---|
| Calendar.DaysInMonth | apps/mortgage/backend/main.py:24 | month length is 28..31, and 29 exactly for February of a leap year |
| Calendar.AddMonths | apps/mortgage/backend/main.py:21-25 | defined exactly when the target year is in 1..9999; otherwise the date constructor fails. The result is a valid date exactly `months` calendar months on, with the day kept or clamped to the target month's last day |
| Calendar.AddMonthsZero | apps/mortgage/backend/main.py:21-25 | adding zero months returns the date unchanged |
| Calendar.AddMonthsRoundTrip | apps/mortgage/backend/main.py:21-25 | for a day of the month up to 28, going k months forward and then k back returns the original date |
| Calendar.AddMonthsCompose | apps/mortgage/backend/main.py:21-25 | adding a then b lands in the same month as adding a + b, on a day no later |
| Calendar.AddMonthsIncreasing | apps/mortgage/backend/main.py:21-25 | more months give a strictly later date |
| Calendar.MonthLabels | apps/mortgage/backend/main.py:166 | the labels exist exactly when every offset 0..count-1 can be dated; label i is the start date plus i months |
| Calendar.MonthLabelsShape | apps/mortgage/backend/main.py:166 | the labels exist exactly when the last one can be dated; they start at the start date and are strictly increasing |
| MortgageBackend.Pmt | apps/mortgage/backend/main.py:33-39 | fails exactly when the annuity formula divides by zero. A non-positive term returns the balance, and a rate below 1e-12 gives balance / n. Otherwise the payment p solves p * (1 - (1+i)^-n) = balance * i |
| MortgageBackend.PaymentAmortizes | apps/mortgage/backend/main.py:33-39 | n months of the payment at rate i bring the balance exactly to zero |
| MortgageBackend.RemainingClosedForm | apps/mortgage/backend/main.py:92-97 | after k level payments, i * balance = b*i*(1+i)^k - p*((1+i)^k - 1) |
| MortgageBackend.RemainingZeroRate | apps/mortgage/backend/main.py:37-38 | at a zero rate, k payments of p leave b - k*p |
| MortgageBackend.Amortize | apps/mortgage/backend/main.py:68-117 | returns a schedule exactly as the loop builds it: one row per month from month 1, interest on the opening balance, the fixed or variable rate by month, the instalment recalculated at the switch when asked, noise snapped to zero, and a stop after the first balance at or below zero or at the term. It fails only where `_pmt` fails, and always when the initial payment is undefined |
| MortgageBackend.AccrueMonth | apps/mortgage/backend/main.py:92-104 | one month's interest, total paid, principal part and snapped closing balance |
| MortgageBackend.AppendMonth | apps/mortgage/backend/main.py:106-112 | appending a correctly accounted month keeps the whole schedule correct (the loop invariant) |
| MortgageBackend.BalanceTelescopes | apps/mortgage/backend/main.py:97-100 | before the last month, each balance is the principal less the principal repaid so far |
| MortgageBackend.PrincipalAccounting | apps/mortgage/backend/main.py:97-104 | principal repaid plus the closing balance equals the loan, up to the sub-1e-6 noise that the snap removes |
| MortgageBackend.TotalInterestIsCharged | apps/mortgage/backend/main.py:189 | the corrected total interest is exactly the interest charged month by month on the opening balances |
| MortgageBackend.PaddedInterestOvercounts | apps/mortgage/backend/main.py:177-189 | a one-month schedule with 10.0 of interest, padded to a 24-month baseline, reports 240.0 of interest against the 10.0 charged |
| MortgageBackend.BuildExtraMap | apps/mortgage/backend/main.py:133-138 | a month has an entry exactly when some payment lands in it within 1..term. Its lump is the sum of all payments landing there, and 0 elsewhere |
| MortgageBackend.LumpTotalNone | apps/mortgage/backend/main.py:136-138 | a month no payment lands in receives nothing |
| MortgageBackend.Pad | apps/mortgage/backend/main.py:169-171 | exactly l entries: the original prefix, then copies of the last entry |
| MortgageBackend.PayoffIndex | apps/mortgage/backend/main.py:181-185 | the first index whose balance is at or below zero, else the last index; all balances before it are positive |
| MortgageBackend.PayoffMonth | apps/mortgage/backend/main.py:181-185 | the search loop returns PayoffIndex |
| MortgageBackend.PadKeepsPayoff | apps/mortgage/backend/main.py:169-187 | padding a schedule that ended at a non-positive balance does not move its payoff month |
| MortgageBackend.Summarize | apps/mortgage/backend/main.py:187-209 | the payoff months come from `_payoff_month` on the padded main and unpadded baseline balances, and are dated by their labels. Interest saved and months saved are clamped at zero. The ending balance is the last one, and it is a balloon exactly when positive |
| MortgageBackend.Mortgage | apps/mortgage/backend/main.py:120-221 | every response has one dated label per month from the start date or today, and at most term + 1 of them. It comes from the request's extra-payment map (each month's lump is the sum of the payments landing in it within the term) and from the two schedules `_amortize` builds: the main one with overpayment and lumps, and the baseline without. The balances are those schedules' balances padded to the longer one, and the monthly series are the main schedule's padded one shorter behind a leading 0. The summary reads the padded balances |
| MortgageBackend.ResponseMonths | apps/mortgage/backend/main.py:173-178 | for every month the main schedule runs, the response's columns obey that month's accounting: interest on the previous balance, the total paid, its principal part and the closing balance |
| MortgageBackend.NoPaddingNoOvercount | apps/mortgage/backend/main.py:177-189 | when the main schedule is at least as long as the baseline, the summed padded list is the corrected total |
| MortgageBackend.Respond | apps/mortgage/backend/main.py:164-221 | fails exactly when a label cannot be dated. Otherwise the balances are both schedules' balances padded to the longer one, the four monthly series are the main schedule's padded one shorter behind a leading 0, the interest totals are those of the two schedules, and the baseline's payoff month is taken on its unpadded balances |
| CompoundBackend.YearlyContributions | apps/compound/backend/main.py:41 | year y contributes annual * (1 + growth)^y |
| CompoundBackend.PerPeriodSplit | apps/compound/backend/main.py:42 | the per-period schedule is each year's share repeated once per period |
| CompoundBackend.ContributionAt | apps/compound/backend/main.py:41-42 | period t carries year t / freq's contribution divided by freq |
| CompoundBackend.SumPerPeriod | apps/compound/backend/main.py:42 | splitting into periods keeps the total |
| CompoundBackend.TotalContribution | apps/compound/backend/main.py:107 | `total_contrib` is the sum of the yearly contributions. g * total = annual*((1+g)^years - 1), and with zero growth the total is years * annual |
| CompoundBackend.GeometricYears | apps/compound/backend/main.py:41 | the yearly contributions form a geometric series |
| CompoundBackend.ZeroGrowthYears | apps/compound/backend/main.py:41 | without growth every year contributes the same amount |
| CompoundBackend.WealthNonNegative | apps/compound/backend/main.py:49-53 | with a non-negative start, positive factors and non-negative contributions, wealth never goes negative |
| CompoundBackend.SteadyWealthIsAnnuity | apps/compound/backend/main.py:49-53 | with every factor 1 + r and yearly periods, a path is the compounded initial amount plus the future value of the growing annuity |
| CompoundBackend.SimulateWealth | apps/compound/backend/main.py:49-53 | the wealth matrix holds each path's wealth after t periods |
| CompoundBackend.GrowColumn | apps/compound/backend/main.py:51-53 | one column step writes column t from column t - 1 and changes nothing else |
| CompoundBackend.WealthColumn | apps/compound/backend/main.py:64-68 | column t holds every path's wealth at t |
| CompoundBackend.SafeDenominator | apps/compound/backend/main.py:84-85 | always positive, and equal to the peak when the peak is positive |
| CompoundBackend.GuardedDrawdown | apps/compound/backend/main.py:86 | non-positive below the peak, zero exactly at the peak, and at least -1 for a non-negative value |
| CompoundBackend.DrawdownsBounded | apps/compound/backend/main.py:82-86 | every drawdown is at most 0, zero exactly at a new running maximum, and at least -1 on a non-negative path |
| CompoundBackend.DeepestAfterFirst | apps/compound/backend/main.py:87-90 | 0 for a path of one point, else the minimum of the drawdowns after the first |
| CompoundBackend.MedianMaxDrawdown | apps/compound/backend/main.py:82-90 | at most 0, and at least -1 on a non-negative path |
| CompoundBackend.FirstPositive | apps/compound/backend/main.py:95 | the first positive point of the path |
| CompoundBackend.CagrBasis | apps/compound/backend/main.py:93-102 | flat exactly when the last point is not positive. Otherwise the base is the first positive point, the ratio is last / base, and the years are the elapsed span over freq floored at 1e-9 |
| CompoundBackend.ProbHitTarget | apps/compound/backend/main.py:78-79 | present exactly when a target is given, and lies in [0, 1]. It is 1 exactly when every final wealth meets the target, and 0 exactly when none does |
| CompoundBackend.Suggestions | apps/compound/backend/main.py:114-125 | fails exactly when a non-zero target meets a zero denominator. The suggestions keep the source's order. Increase is present exactly when target / median exceeds 1.05, on track exactly when it is below 0.9, the expense note exactly when the expense ratio exceeds 0.002, and the volatility note exactly when the volatility exceeds 0.22 |
| CompoundBackend.Band | apps/compound/backend/main.py:63-68 | band t is the percentile of column t of the wealth matrix |
| CompoundBackend.MatrixBand | apps/compound/backend/main.py:63-68 | the percentiles of the computed matrix equal the bands of the specified paths |
| CompoundBackend.SimulatePaths | apps/compound/backend/main.py:32-133 | fails exactly when the suggestion ratio divides by zero. Otherwise the response reports times 0..T, the five bands, the mean, median, p10 and p90 of final wealth, the hit probability, the median path's drawdown and CAGR basis, the total contribution, and the suggestions for the median final wealth. Under a within-sample percentile the median final wealth and the median band are non-negative, and the drawdown is at least -1 |
| CompoundBackend.BandsNonNegative | apps/compound/backend/main.py:64-74 | the median band and the median final wealth are non-negative |
| CompoundBackend.ContributionsNonNegative | apps/compound/backend/main.py:41-42 | every period's contribution is non-negative under the request's field bounds |
| CompoundBackend.IntPow | apps/compound/backend/main.py:156-159 | Python's `x ** n` for an integer n: it fails exactly for 0 to a negative power, and a negative power is the reciprocal |
| CompoundBackend.GrowingAnnuity | apps/compound/backend/main.py:158 | (r - g) * future value = c*(1+r)^n - c*(1+g)^n |
| CompoundBackend.LevelAnnuity | apps/compound/backend/main.py:156 | with r = g the future value is n * c * (1+r)^(n-1) |
| CompoundBackend.AnnuityFactor | apps/compound/backend/main.py:155-158 | fails exactly where Python raises: 0 to a negative power |
| CompoundBackend.AnnuityFactorExact | apps/compound/backend/main.py:155-158 | for equal rates, or rates at least 1e-6 apart, the factor is the future value of a unit growing annuity |
| CompoundBackend.NeededContribution | apps/compound/backend/main.py:159 | non-negative. A positive amount makes the grown initial plus the annuity hit the target exactly; zero means the initial amount alone reaches it |
| CompoundBackend.Suggest | apps/compound/backend/main.py:150-165 | defined for every horizon of at least a year. The contribution is non-negative and the increase is it minus the current one |
| CompoundBackend.SuggestReachesTarget | apps/compound/backend/main.py:150-160 | the suggested contribution, grown as the simulation grows it, reaches the target exactly, or it is 0 and the initial amount already does |
| CompoundBackend.FutureValueScales | apps/compound/backend/main.py:159 | the annuity's future value is linear in the first contribution |
| FireBackend.RaisedIsPower | apps/fire/backend/main.py:73-85 | raising an amount n times is compounding: a * x^n |
| FireBackend.BuildSchedule | apps/fire/backend/main.py:69-85 | contribution m is the monthly amount raised once per 12 periods during accumulation, and 0 after. Draw m is 0 before retirement and then the drawdown raised once per 12 retirement periods |
| FireBackend.YearlyRaise | apps/fire/backend/main.py:73-85 | 12 periods later within a phase, the amount is multiplied by 1 + inflation |
| FireBackend.ScheduleNonNegative | apps/fire/backend/main.py:73-85 | non-negative amounts stay non-negative for inflation of at least -100% |
| FireBackend.FireWealthNonNegative | apps/fire/backend/main.py:112 | after the first period, wealth is never negative |
| FireBackend.DepletionIsFinal | apps/fire/backend/main.py:106-112 | once wealth hits zero in retirement it stays zero |
| FireBackend.FirePath | apps/fire/backend/main.py:104-112 | entry t of a path is its wealth after t periods |
| FireBackend.SimulateFire | apps/fire/backend/main.py:104-112 | the wealth matrix holds each path's wealth after t periods |
| FireBackend.StepColumn | apps/fire/backend/main.py:106-112 | one column step writes column t and nothing else |
| FireBackend.FirstDepleted | apps/fire/backend/main.py:132-135 | the first index in range whose wealth is at or below zero, and None exactly when every one is positive |
| FireBackend.TimeToZero | apps/fire/backend/main.py:131-139 | always within 0..T_ret |
| FireBackend.TimeToZeroMeaning | apps/fire/backend/main.py:128-139 | a value below T_ret is the first retirement month at zero. A path positive throughout retirement scores T_ret |
| FireBackend.SurvivorLastsRetirement | apps/fire/backend/main.py:128-139 | a path with positive terminal wealth lasts the whole retirement |
| FireBackend.TimesToZero | apps/fire/backend/main.py:128-139 | the loop gives TimeToZero of every row |
| FireBackend.MedianLongevityBounded | apps/fire/backend/main.py:140 | the truncated median of the months lasted lies within 0..T_ret |
| FireBackend.ColumnOf | apps/fire/backend/main.py:115-119 | column t holds every path's wealth at t |
| FireBackend.FireBand | apps/fire/backend/main.py:115-119 | band t is the percentile of column t |
| FireBackend.Longevities | apps/fire/backend/main.py:128-139 | one value per path: its time to zero, within 0..T_ret |
| FireBackend.Fire | apps/fire/backend/main.py:58-166 | fails exactly when a label cannot be dated. Otherwise it reports the five bands, the median terminal wealth, the share of positive terminal wealth, the truncated median months lasted, the retirement start index and the labels |
| FireBackend.Report | apps/fire/backend/main.py:114-166 | the response computed from the wealth matrix is the specified one |
| FireBackend.FireBands | apps/fire/backend/main.py:115-119 | the five percentile bands of the matrix |
| FireBackend.TerminalStats | apps/fire/backend/main.py:122-124 | the median of terminal wealth and the share of paths ending positive |
| FireBackend.MedianLongevity | apps/fire/backend/main.py:128-140 | the truncated median of the per-path times to zero |
| FireBackend.RowsArePaths | apps/fire/backend/main.py:130 | the matrix rows are the paths and its columns are the columns |
| FireBackend.ColumnsAreBands | apps/fire/backend/main.py:115-119 | percentiles of the matrix columns are the specified bands |
| FireBackend.LastingWithinRetirement | apps/fire/backend/main.py:140 | the reported median months lasted lies within 0..T_ret |
| FireBackend.SurvivalIsFraction | apps/fire/backend/main.py:122-123 | the survival probability lies in [0, 1]. It is 1 exactly when every path ends positive, and 0 exactly when none does |
| FireBackend.MedianWealthNonNegative | apps/fire/backend/main.py:115-124 | with a non-negative start, the median terminal wealth and the median band are non-negative |
| FireBackend.MedianBandNonNegative | apps/fire/backend/main.py:117 | the median band is non-negative |
| FireBackend.ColumnNonNegative | apps/fire/backend/main.py:112 | every column entry is non-negative |
| FireBackend.SurvivorsLastRetirement | apps/fire/backend/main.py:122-139 | a path that survives (positive terminal wealth) reports the whole retirement as lasted |
| DrawdownBackend.ProductPositive | apps/drawdown/backend/main.py:62 | a product of positive factors is positive |
| DrawdownBackend.Prices | apps/drawdown/backend/main.py:61-62 | a price row starts at 1, and each price is the previous one times that period's factor |
| DrawdownBackend.PricesPositive | apps/drawdown/backend/main.py:61-62 | positive factors give positive prices |
| DrawdownBackend.Drawdowns | apps/drawdown/backend/main.py:64-65 | drawdown t is (price - running peak) / running peak |
| DrawdownBackend.DrawdownBounds | apps/drawdown/backend/main.py:64-65 | each drawdown lies in (-1, 0], is zero exactly at a running peak, and starts at 0 |
| DrawdownBackend.PathDrawdowns | apps/drawdown/backend/main.py:61-65 | a path's drawdowns lie in (-1, 0] and start at 0 |
| DrawdownBackend.SteadyGrowthNoDrawdown | apps/drawdown/backend/main.py:61-65 | when no factor is below 1, every drawdown is 0 |
| DrawdownBackend.MaxDrawdown | apps/drawdown/backend/main.py:73 | a path's deepest drawdown lies in (-1, 0] and is no deeper than any entry |
| DrawdownBackend.DrawdownColumn | apps/drawdown/backend/main.py:67-71 | column t holds every path's drawdown at t |
| DrawdownBackend.DrawdownBand | apps/drawdown/backend/main.py:67-71 | band t is the percentile of column t |
| DrawdownBackend.BandWithin | apps/drawdown/backend/main.py:67-71 | every band lies in (-1, 0] and starts at 0 |
| DrawdownBackend.SinglePathBands | apps/drawdown/backend/main.py:67-71 | with one path, every band is that path's drawdowns |
| DrawdownBackend.MaxDrawdowns | apps/drawdown/backend/main.py:73 | one deepest drawdown per path |
| DrawdownBackend.MaxDrawdownStatWithin | apps/drawdown/backend/main.py:73-76 | every percentile of the deepest drawdowns lies in (-1, 0] |
| DrawdownBackend.MedianPath | apps/drawdown/backend/main.py:78 | entry t is the median of the prices at t |
| DrawdownBackend.MedianPathPositive | apps/drawdown/backend/main.py:78-80 | the median path is positive, so `med_dd` never divides by zero |
| DrawdownBackend.MedianDrawdowns | apps/drawdown/backend/main.py:79-80 | the median path's drawdowns lie in (-1, 0] |
| DrawdownBackend.FirstRecovered | apps/drawdown/backend/main.py:84-87 | the first index from `from` at or above the level; None exactly when none reaches it |
| DrawdownBackend.RecoveryIndex | apps/drawdown/backend/main.py:82-87 | the recovery index lies between the trough and the path's end |
| DrawdownBackend.RecoverySearch | apps/drawdown/backend/main.py:82-87 | the search loop with its break returns RecoveryIndex |
| DrawdownBackend.Trough | apps/drawdown/backend/main.py:81 | the trough index is within the horizon |
| DrawdownBackend.RecoveryMeaning | apps/drawdown/backend/main.py:81-88 | the months lie in 0..(length - trough - 1). A positive value is the first return to the trough's peak. The value is 0 exactly when the trough is at its peak or the path never recovers |
| DrawdownBackend.RecoveryWithinHorizon | apps/drawdown/backend/main.py:81-88 | the recovery months fit between the trough and the horizon |
| DrawdownBackend.RecoveryMonthsZero | apps/drawdown/backend/main.py:79-88 | 0 recovery months exactly when the trough has no drawdown or the median path never regains the peak |
| DrawdownBackend.ResponseWithin | apps/drawdown/backend/main.py:67-105 | all three deepest-drawdown statistics and the median band lie in (-1, 0]. The p10, p50 and p90 bands start at 0, and the recovery months lie within the horizon |
| DrawdownBackend.Drawdown | apps/drawdown/backend/main.py:49-108 | fails exactly when a label cannot be dated. Otherwise it reports the five bands, the median, p10 and p90 of the deepest drawdowns, the median recovery months and the labels |
| DrawdownBackend.Respond | apps/drawdown/backend/main.py:67-108 | the same, once the median path is known to be positive |
| DrawdownBackend.MedianRecovery | apps/drawdown/backend/main.py:78-88 | computes the specified recovery months |
| Numeric.ArgMin | apps/drawdown/backend/main.py:81 | `np.argmin`: an index of the minimum, and the first one |
| Numeric.RunningMaxOfRising | apps/drawdown/backend/main.py:64 | on a series that never falls, the running peak is the series itself |
| Numeric.RunningMaxBounds | apps/drawdown/backend/main.py:64 | the running maximum bounds every earlier entry, is one of them, and never falls |
| Numeric.Min | apps/drawdown/backend/main.py:73 | the minimum of a non-empty sequence is one of its entries and is at most every entry |
| Numeric.Max | apps/drawdown/backend/main.py:64 | the maximum of a non-empty sequence is one of its entries and is at least every entry |
| Numeric.SumAppend | apps/mortgage/backend/main.py:189 | the sum of a concatenation is the sum of the parts |
| Numeric.ConstantSum | apps/mortgage/backend/main.py:171 | n copies of x sum to n * x |
| Numeric.PercentileWithin | apps/compound/backend/main.py:64-68 | a within-sample percentile of values in [lo, hi] lies in [lo, hi] |
| Numeric.PercentileOfOne | apps/drawdown/backend/main.py:67-71 | a within-sample percentile of one value is that value |
| Numeric.Mean | apps/compound/backend/main.py:73 | `np.mean`: the mean times the sample size is the sample's sum |
| Numeric.Share | apps/fire/backend/main.py:123 | `np.mean` of a boolean mask lies in [0, 1]. It is 1 exactly when every entry qualifies, and 0 exactly when none does |
| Numeric.CountAll | apps/fire/backend/main.py:123 | the mask counts every entry exactly when every entry qualifies |
| Numeric.CountNone | apps/fire/backend/main.py:123 | the mask counts nothing exactly when no entry qualifies |
| Numeric.Trunc | apps/fire/backend/main.py:140 | `int()` truncates toward zero: the result is the integer within 1 of x on x's side of zero, and no further from zero than x |
| Numeric.Row | apps/fire/backend/main.py:130 | `wealth[i]`: entry t is the matrix cell (i, t) |
| Numeric.Column | apps/compound/backend/main.py:71 | `wealth[:, t]`: entry i is the matrix cell (i, t) |
| Numeric.Range | apps/compound/backend/main.py:128 | `list(range(0, n))`: n entries, entry t being t |
| Numeric.ColumnPercentiles | apps/compound/backend/main.py:63-68 | the loop gives the percentile of each column |

## Left out

- Rounding to `decimals` and `nan_to_num` sanitising are left out. The
  responses carry the unrounded values and the digit count `max(0,
  decimals)`. ISO formatting of the labels is left out too: labels are
  `Date` values.
- The random number generator and the seed are not modelled. Neither are
  `np.exp` and `np.sqrt`, which turn drift, volatility and expense ratio into
  factors. Each simulation takes its growth factors as an input instead, and
  those request fields have no effect in the model.
- `np.percentile` and `np.median` are the parameter `pct`. Only the
  within-sample property of linear interpolation is assumed of it. So the
  model does not prove that p10 ≤ p50 ≤ p90, which depends on the
  interpolation itself.
- CompoundBackend.SimulatePaths: does not report `p50_real` or
  `real_median_final`. These divide by `(1 + inflation) ** (t / frequency)`,
  a fractional power that Dafny's reals cannot express.
- CompoundBackend.CagrBasis: stops at the base index, ratio and years. The
  CAGR itself is a fractional power of the ratio.
- CompoundBackend.Suggestions: the suggestions are constructors carrying
  their numbers, not the formatted message strings.
- CompoundBackend.SuggestReachesTarget: does not cover rates less than 1e-6
  apart but not equal. There the source uses the level-annuity formula as an
  approximation, so the target is reached only approximately.
- FireBackend.SimulateFire: writes each cell once, with the floor at zero
  already applied. The source writes the unfloored value and then floors it
  in place.
- FireBackend.BuildSchedule: raises the amounts every 12 periods whatever the
  frequency, as the code does. With a frequency other than 12 this is not
  once a year.
- FireBackend.Fire, DrawdownBackend.Drawdown and CompoundBackend.SimulatePaths
  require a valid horizon: at least 0 years, a frequency of at least 1 and at
  least one path. The source raises on a frequency of 0 or on an empty
  percentile. The compound request's field bounds already guarantee this.
- FireBackend.Fire: also requires each phase to be non-negative. With a
  negative `years_to_retire` and a non-negative total horizon the source
  still runs, writing `draw` through negative indices that wrap around;
  that case is not modelled.
- DrawdownBackend.Drawdown: requires a within-sample percentile, so that the
  median price path is positive. Without it, numpy's `med_dd` would divide
  by zero.
- MortgageBackend.Respond: reports the corrected total interest (the sum
  over the months the main loan was open) and the interest saved computed
  from it. The source reports the sum of the list padded to the baseline's
  length (see Findings); MortgageBackend.TotalInterestAsWritten is that
  value, and MortgageBackend.NoPaddingNoOvercount shows the two agree
  whenever the main schedule is not the shorter one. The same holds for
  MortgageBackend.Mortgage, which returns what Respond builds.
- MortgageBackend.Mortgage: does not characterise when it returns `None`.
  `MortgageBackend.Amortize` and `MortgageBackend.Respond` state the failure
  cases of each step.
- CORS, pydantic's parsing and the HTTP layer are left out.
- The percentiles follow numpy's linear interpolation, the rounding takes
  `decimals` from the request, and `/fire` and `/drawdown` report five bands
  (p10, p25, p50, p75, p90). `/drawdown` reports the median, p10 and p90 of
  the per-path deepest drawdowns and the median path's recovery months.

## Findings

| source | as written | input that shows it | evidently intended | confidence | as-written member | corrected member |
|---|---|---|---|---|---|---|
| apps/mortgage/backend/main.py:177-189 | `total_interest` sums the interest list after it has been padded to the baseline's length (L - 1 entries) with copies of its last month's interest | a schedule that pays off in month 1 with 10.0 of interest, against a 24-month baseline (L = 25): the reported total is 240.0 | the interest summed over the months the loan was open (10.0), as `baseline_interest` already is | not executed | MortgageBackend.PaddedInterestOvercounts | MortgageBackend.TotalInterestIsCharged |
