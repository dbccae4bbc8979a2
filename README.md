# One-way continuous slab design (ACI 318-19), modelled in Dafny

This project models the design engine of `RCD_II.py`, a small tool for the
preliminary design of a continuous one-way concrete slab. A design run has
these stages:

1. **Span validation.** Adjacent clear spans may differ by at most 20% of the
   shorter span.
2. **Load validation.** The dead load must be non-zero, and live/dead must be
   below 3.
3. **Thickness.** The thickness comes from the longest span. It is the larger of
   the L/24 and L/28 minimum thicknesses (ACI 318-19 Table 7.3.1.1), rounded up
   to a multiple of 3 in.
4. **Loads.**
   - Self weight is 150 pcf over the slab depth, rounded to two decimals.
   - The factored load is 1.2D + 1.6L (ACI 318-19 Table 5.3.1), converted to
     ksf.
5. **Moments.** Each span gets coefficient · wu · L² at three locations, rounded
   to three significant figures. The coefficient table depends on the span's
   role: both spans of a two-span slab, an end span, or an interior span.
6. **Reinforcement.** For every moment the engine computes:
   - Ru, the steel ratio ρ, and the required area As;
   - the temperature-and-shrinkage minimum 0.0018·b·t (ACI 318-19 section
     24.4.3.2) and the governing area;
   - the main-bar spacing, capped at 2t and rounded to the nearest inch (half to
     even);
   - the #3 shrinkage-bar spacing, capped at 5t and floored.

Modules, one per file:

- `Results`: the Result type.
- `Rounding`: Python's `round`, `round(x, 2)` and `round_sig` on exact reals.
- `Validation`, `Loads`, `Moments`, `Reinforcement`: the stages.
- `SlabDesign`: the order in which the stages run.

How the source maps to Dafny:

- The three loops of the source are methods, each proved against a
  specification function. `check_span_limits` is proved against
  `SpansCompatible`, `design_moments` against `SpanMoments`, and
  `reinforcement_design` against `DesignSpan`.
- The straight-line stages are functions with lemmas.
- Quantities are exact `real`s.
- `math.sqrt` is a parameter `sqrt`. Lemmas that need its meaning require
  `IsSqrt(sqrt)`.
- `math.pi` is the constant `Pi` = 3.141592653589793. That is the shortest
  decimal form of the double nearest to π, not the double's exact value
  (3.141592653589793115997…).

The steel ratio is modelled as the code computes it: ρ = (0.85·φ·f'c/fy)·(1 − √(1 − term)).
`RhoSolvesStrengthEquation` shows that this ρ solves
Ru = ρ·fy·(1 − ρ·fy/(1.7·φ·f'c)), with Ru = Mu/(b·d²). So φ sits inside the
bracket rather than multiplying the whole strength.

The main-bar spacing uses Python's `round`, which rounds half to even. The
model reproduces this, not the "round down" that the comment at
`RCD_II.py:140` announces.

Two error paths of the code are handled as follows:

- The code raises `ZeroDivisionError` for some thicknesses (see "Left out").
  The model requires t > 1, which excludes all of them. A design run always
  produces at least 3 in.
- The code lets `math.sqrt` raise. The model returns a `Failure` naming the
  first span and location whose square-root argument is negative, which is the
  point where the code raises.

## Model

| member | source | states |
|---|---|---|
| `Rounding.RoundHalfEven` | RCD_II.py:141 | `round(y)` is an integer within 0.5 of y, and it is even when y lies exactly halfway |
| `Rounding.RoundHalfEvenUnique` | RCD_II.py:141 | those two properties single out one integer, so they specify `round` completely |
| `Rounding.RoundHalfEvenAtMost` | RCD_II.py:133-141 | a value no larger than an integer k never rounds above k |
| `Rounding.RoundHalfEvenMonotone` | RCD_II.py:141 | rounding never reverses the order of two values |
| `Rounding.RoundTwoPlaces` | RCD_II.py:37 | `round(x, 2)` is a whole number of hundredths within 0.005 of x; exactly halfway, it is the even number of hundredths |
| `Rounding.RoundTwoPlacesExact` | RCD_II.py:37 | a value that is already a whole number of hundredths is returned unchanged |
| `Rounding.RoundSig` | RCD_II.py:47-50 | `round_sig(0)` is 0, and a non-zero value keeps its sign |
| `Rounding.RoundSigOdd` | RCD_II.py:47-50 | rounding −x gives −(rounding of x) |
| `Rounding.RoundSigMonotone` | RCD_II.py:47-50 | for every precision, round_sig never reverses the order of two values |
| `Validation.CheckSpanLimits` | RCD_II.py:4-10 | true iff every adjacent pair satisfies abs(s[i] − s[i−1]) ≤ 0.2·min; on failure it reports the lowest offending pair, and every earlier pair passed |
| `Validation.WithinLimitRatio` | RCD_II.py:6-7 | for positive spans, the 20% rule is equivalent to longer ≤ 1.2 · shorter |
| `Validation.WithinLimitSymmetric` | RCD_II.py:6-7 | the rule does not depend on which span of the pair comes first |
| `Validation.SpansCompatibleReverse` | RCD_II.py:4-10 | listing the spans from the other end gives the same verdict |
| `Validation.CheckLoadRatio` | RCD_II.py:12-19 | false for a zero dead load; otherwise true iff live < 3·dead (for positive dead) or live > 3·dead (for negative dead); no division by zero is reached |
| `Loads.MaxSpan` | RCD_II.py:23 | the result is one of the spans and is at least every span |
| `Loads.Ceil` | RCD_II.py:29 | `math.ceil`: the least integer n with x ≤ n |
| `Loads.SlabThickness` | RCD_II.py:22-31 | a multiple of 3; at least both L·12/24 and L·12/28; less than 3 above the larger of them |
| `Loads.ThicknessClosedForm` | RCD_II.py:22-31 | for L ≥ 0: the L/24 term governs; t = ceil(L/6)·3; L/2 ≤ t < L/2 + 3; t ≥ 3 when L > 0 |
| `Loads.ThicknessMonotone` | RCD_II.py:22-31 | a longer governing span never gives a thinner slab |
| `Loads.SelfWeight` | RCD_II.py:34-37 | for a whole number of inches t, the self weight is exactly 12.5·t psf, so the rounding changes nothing |
| `Loads.UltimateLoad` | RCD_II.py:40-44 | total dead = dead + self weight; wu·1000 = 1.2·total dead + 1.6·live; both non-negative for non-negative inputs |
| `Loads.UltimateLoadBounds` | RCD_II.py:40-44 | the factored load is between 1.2 and 1.6 times the service load |
| `Loads.UltimateLoadMonotone` | RCD_II.py:40-44 | more dead or live load never lowers wu |
| `Loads.NineInchSlab` | RCD_II.py:34-44 | a 9 in slab weighs 112.5 psf; with 20 psf dead load and 40 psf live load, wu = 0.223 ksf |
| `Moments.SpanMomentsDisplay` | RCD_II.py:59-95 | each role's moments are exactly the three-entry dictionary its branch writes |
| `Moments.DesignMoments` | RCD_II.py:53-96 | one dictionary per span, in span order; span i gets the table of its role (two-span, first, interior, last), also when the last span is copied from the first |
| `Moments.EndSpansAgree` | RCD_II.py:78-88 | for three or more spans, the first and last tables coincide, so the copy at line 81 gives the last span's own moments |
| `Moments.MomentKeys` | RCD_II.py:59-95 | the keys are {A, B, C} for a two-span slab and for end spans, and {C, D, E} for interior spans |
| `Moments.MomentsMirror` | RCD_II.py:59-95 | numbering the spans from the other end gives every span the same table |
| `Moments.ZeroLoadZeroMoments` | RCD_II.py:47-49 | with wu = 0 every moment is 0 |
| `Moments.MomentsNonNegative` | RCD_II.py:61-95 | a non-negative wu gives non-negative moments after rounding |
| `Moments.MomentsMonotone` | RCD_II.py:61-95 | under a non-negative wu, a longer span never has a smaller rounded moment at any location |
| `Moments.MomentAtCGoverns` | RCD_II.py:59-95 | C is in every table, and under non-negative wu its moment is the largest of its span |
| `Reinforcement.RuSign` | RCD_II.py:114-115 | Ru is positive iff Mu is, and zero iff Mu is |
| `Reinforcement.AsMin` | RCD_II.py:125 | the minimum area is positive for a positive thickness |
| `Reinforcement.AsFinal` | RCD_II.py:128 | the governing area is the larger of required and minimum, so it is at least both |
| `Reinforcement.BarArea` | RCD_II.py:103-104 | a non-zero bar size has a positive bar area |
| `Reinforcement.MainSpacing` | RCD_II.py:130-141 | never above 2t; equals 2t when the cap applies; otherwise within 0.5 of the theoretical spacing, and an even integer when that spacing lies exactly halfway |
| `Reinforcement.ShrinkSpacing` | RCD_II.py:144-149 | never above 5t or above the theoretical spacing, and less than 1 below it unless the cap applies |
| `Reinforcement.ShrinkSpacingValue` | RCD_II.py:144-149 | the 5t cap governs for t ≤ 4; for t ≥ 5 the spacing is floor(1100/(9t)) |
| `Reinforcement.DesignKey` | RCD_II.py:114-161 | rounded As_final ≥ rounded As_min > 0; main spacing ≤ 2t; shrinkage spacing ≤ 5t; the bar size is kept; a non-negative moment reports non-negative Mu and Ru |
| `Reinforcement.DesignSpan` | RCD_II.py:111-162 | a span's result has exactly the span's keys |
| `Reinforcement.RhoBounds` | RCD_II.py:121-122 | for a non-negative moment with term ≤ 1: 0 ≤ ρ ≤ 0.85·φ·f'c/fy |
| `Reinforcement.DesignKeyNonNegative` | RCD_II.py:121-124 | for a non-negative feasible moment the reported ρ and As_req are non-negative |
| `Reinforcement.RhoSolvesStrengthEquation` | RCD_II.py:115-122 | ρ solves Ru = ρ·fy·(1 − ρ·fy/(1.7·φ·f'c)) |
| `Reinforcement.RhoMonotone` | RCD_II.py:115-122 | a moment below a feasible moment is feasible and never needs a larger ρ |
| `Reinforcement.DesignKeyMonotone` | RCD_II.py:114-157 | a larger moment never reports less required or governing steel |
| `Reinforcement.DesignSpanResult` | RCD_II.py:112-161 | visits the keys in order A..E; succeeds iff every moment of the span is feasible, giving `DesignSpan`; otherwise reports the first infeasible key |
| `Reinforcement.ReinforcementDesign` | RCD_II.py:98-163 | succeeds iff every moment is feasible, keeping span count, order and key sets; otherwise reports the first (span, location) with term > 1, all earlier ones being feasible |
| `SlabDesign.PositiveSpansThickness` | RCD_II.py:22-31 | positive spans give a thickness of at least 3 in, so d = t − 1 > 0 |
| `SlabDesign.Run` | RCD_II.py:199-225 | span check first, load check only after it passes; when both pass and every moment is feasible a design is produced, holding the thickness, the self weight 12.5·t, the loads, the moments of every span and their reinforcement, all from the specification functions; otherwise the failure names the first infeasible (span, location), every earlier one being feasible |

## Left out

- The Streamlit interface is not modelled: page text, sidebar inputs, the
  button and the tables (`RCD_II.py:2`, `RCD_II.py:171-234`).
- The `st.error` messages at lines 8, 14 and 17 are not modelled. The checks
  return their boolean, and the span check also returns the offending index.
- IEEE-754 floating point is not modelled. Every quantity is an exact real.
  `round`, `round(x, 2)` and `round_sig` are modelled as exact decimal rounding
  with ties to even, not as rounding of the binary value.
- `math.sqrt` is a parameter. Its meaning is assumed only where a lemma says
  `IsSqrt(sqrt)`.
- `math.pi` is the decimal literal 3.141592653589793, not the exact binary
  value of the double.
- Output strings are not modelled:
  - the `Bar #` and spacing fields are kept as integers, without the text
    around them (`RCD_II.py:158-160`);
  - `spacing_note` (`RCD_II.py:135`) is discarded, as the code discards it.
- `fc_psi` and `fy_psi` (`RCD_II.py:118-119`) are never used and are not
  modelled.
- Line 107 reads the module-level `t`, not the parameter `t_in`. The model
  passes one thickness for both. At the only call (`RCD_II.py:225`) the two are
  equal.
- Division by zero is not modelled. The source raises `ZeroDivisionError` in
  these cases:
  - t_in = 1 (line 115);
  - f'c = 0 (line 121);
  - fy = 0 (line 122);
  - As_final = 0 (line 130), which needs t_in ≤ 0;
  - t_in = 0 (line 145).
  - `ReinforcementDesign` requires t > 1, f'c > 0 and fy > 0.
  - `Run` requires positive spans, f'c > 0 and fy > 0.
  - The input widgets guarantee all of these (spans ≥ 1 ft, f'c ≥ 3 ksi,
    fy ≥ 40 ksi).
- `SlabThickness` requires at least one span. `max` of an empty list raises,
  and the input widgets ask for at least two spans.
- Dictionaries are `map`s, which have no order.
  - Keys are visited in the order A, B, C, D, E, which is the insertion order of
    every dictionary `design_moments` builds.
  - The key order of the result dictionaries is not represented.
- `M.append(M[0])` at line 81 makes the last span share the first span's
  dictionary object. The sharing is not represented, only the equal value.
  Nothing later modifies either dictionary.
- Rounding.RoundSig: the contract states zero, sign, oddness and monotonicity
  only. The accuracy bound (error at most half a unit in the last kept digit)
  is not proved.
- Whether the coefficients and limits agree with the ACI tables is not modelled.
  Examples are the 2t spacing cap and the two-span 1/9 coefficient. The model
  states what the code computes.
