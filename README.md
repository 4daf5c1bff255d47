# Optical link budget and optical fibre model

This project is a Dafny model of the computational core of a small optical
communications toolkit. The toolkit has two parts.

- **Point-to-point link budget** (`links.py`). A `Channel`, a `Transmitter` and
  a `Receiver` are joined by a fibre of a given length, with a splice at each
  fixed spacing and a connector at each end. The constructors scale their
  arguments into base units once: kilometres to metres, dB/km to dB/m,
  and microns or micrometres to metres. The budget is then built from a splice
  count, the splice loss, the attenuation loss, the total loss and the
  allowed loss (source power minus receiver sensitivity). A link closes when
  its total loss is strictly below the allowed loss. A transmitter also gives
  its photon energy `h*c/lambda`.
- **Optical fibre** (`opticalfibre.py`). A fibre is built in one of two forms:
  - from explicit core and cladding indices (`n1`, `n2`);
  - from a core index and a relative index difference `delta`.

  Construction derives the numerical aperture and the critical and
  acceptance angles, or it raises an error. `plot_profile` samples the
  integer radii across the cladding. A step fibre takes the core index
  inside the core and the cladding index outside it. A graded fibre first
  recomputes `delta` from the two indices.

Modules:

- `Common`: `Option`, `Result`, Python truthiness of an optional number, and
  `int()` truncation toward zero.
- `Constants`: the unit multipliers and physical constants, passed as a
  parameter.
- `RealArith`: small facts about real multiplication.
- `Links`: the link budget, as datatypes and functions.
- `Profile`: the sampled radii, step indices and recomputed index difference.
- `Fibre`: the construction rules, as a function `Derive`, and the
  `OpticalFibre` class. Its `PlotProfile` method overwrites the `delta` field
  in place, as the source does.

Python semantics are modelled explicitly:

- A division by zero is a `ZeroDivisionError` result.
- Each `ValueError` raised during construction is one variant of
  `FibreError`.
- A math domain error of `sqrt` or `asin` is `MathDomainError`.
- An argument that is absent or zero counts as "not given", matching
  `if not (x)` in the source.

Where the code and its comments disagree, the model follows the code:

- The `Channel` docstring says the attenuation is given in dB/m. The code
  divides it by `kilo`, so the caller's value is effectively dB/km and the
  stored value is dB/m.
- The error message "Core Refractive Index is greater than cladding" is
  raised when the core index is *smaller* than the cladding index. The model
  calls this error `CoreBelowCladding`.
- The `Transmitter` docstring (links.py:25) says the emission wavelength is
  given in Angstroms. The code multiplies it by `micro` (links.py:28), so the
  caller's value is in micrometres, and the model names it that way.

What the code computes, stated plainly:

- For a non-negative cladding radius the plotted radii are the integers in
  `[-floor(r_clad), floor(r_clad))`. The range is half-open: for a cladding
  radius of at least 1, `-floor(r_clad)` is sampled and `floor(r_clad)` is
  not. A cladding radius below 1, negative ones included, samples no radius
  at all.
- The splice count is `int(length/dist) - 1`. A 50 km link with splices every
  2 km (0.35 dB/km, 0.1 dB per splice, two 0.5 dB connectors, a 3 dB margin)
  therefore counts 24 splices and loses 23.9 dB in total.

## Model

| member | source | states |
|---|---|---|
| Common.Trunc | links.py:61 | `int()` of a real truncates toward zero: for x >= 0 the result is the largest integer not above x, for x < 0 the smallest integer not below x |
| Links.NewChannel | links.py:11-20 | the stored attenuation times `kilo` is the caller's per-km attenuation, the stored core radius divided by `micron` is the caller's microns, and the other fields are kept |
| Links.NewTransmitter | links.py:27-34 | the stored wavelength divided by `micro` is the caller's micrometres, it is positive exactly when the caller's value is, and the other fields are kept |
| Links.CalculateEnergy | links.py:36-37 | raises exactly when the wavelength is zero; otherwise energy times wavelength equals `h*c`, and with positive constants the energy is positive exactly when the wavelength is |
| Links.NewP2PSystem | links.py:49-58 | length and splice spacing stored in metres (divided by `kilo` they give the caller's km); every other argument is stored unchanged |
| Links.SpliceCount | links.py:60-61 | raises exactly when the spacing is zero; otherwise count + 1 is the whole number of spacings in the length, truncated toward zero (bounds on both sides, for both signs of the ratio) |
| Links.SpliceLoss | links.py:60-62 | raises exactly when the splice spacing is zero; otherwise it is `lsp` times `floor(length/dist) - 1` for a non-negative ratio, and `lsp` times `ceil(length/dist) - 1` for a negative one (the whole part taken toward zero) |
| Links.AttenuationLoss | links.py:64-65 | the attenuation loss is non-negative on a link of non-negative length and attenuation, and zero when either is zero |
| Links.ReceivedPowerAboveSensitivity | links.py:67-68 | the specification of `AllowedLoss` (source power less sensitivity): the link closes exactly when the spacing is non-zero and the power reaching the receiver (source power less total loss) is above the receiver's sensitivity, and fails exactly when that power is at or below it |
| Links.TotalLoss | links.py:70-74 | raises exactly when the spacing is zero; otherwise twice the connector loss plus attenuation loss plus splice loss plus safety margin |
| Links.IsLossValid | links.py:76-81 | raises exactly when the spacing is zero; otherwise true exactly when the total loss is strictly below the allowed loss |
| Links.AttenuationScalingCancels | links.py:18 | the two unit scalings cancel: the attenuation loss of a built link is the per-km attenuation times the length in km, for any positive `kilo` |
| Links.SpliceCountScaleFree | links.py:53-54 | the splice count of a built link is `trunc(lengthKm/distKm) - 1`, or a division error when the spacing is zero, whatever the unit scale |
| Links.ShortLinkNegativeSplices | links.py:60-74 | a link shorter than one spacing counts -1 splices, so its splice loss is `-lsp` and the total loss is reduced by `lsp` |
| Links.ShortLinkSpliceLossHelps | links.py:60-74 | on such a short link a larger per-splice loss gives a strictly smaller total loss |
| Links.ExactBudgetFails | links.py:79-81 | a link whose total loss equals the allowed loss does not close (strict comparison) |
| Links.RaisingLossesNeverHelps | links.py:60-81 | raising connector loss, margin, splice loss (with a non-negative count) or attenuation (on a non-negative length) never lowers the total loss, never makes a failing link pass, and keeps the zero-spacing error |
| Links.AttenuationMono | links.py:64-65 | raising the attenuation on a link of non-negative length never lowers the attenuation loss |
| Links.WorkedExample | links.py:49-81 | 50 km, 2 km spacing, 0.35 dB/km, 0.1 dB splices, 0.5 dB connectors, 3 dB margin: 24 splices, 17.5 dB attenuation, 23.9 dB total, 40 dB allowed for 0 dBm and -40 dBm, so the link closes |
| Links.ExampleBudget | links.py:70-81 | with 24 splices and 17.5 dB attenuation the example's figures give a 23.9 dB total against 40 dB allowed, so the link is valid |
| Links.EnergyPositive | links.py:27-28 | a positive wavelength in micrometres gives a defined, positive photon energy |
| Links.EnergyAt1550nm | links.py:27-37 | with the SI values of `h`, `c` and `micro`, a 1.55 micrometre emitter gives a photon energy between 1.2815e-19 J and 1.2816e-19 J |
| Profile.HalfWidthIsFloor | opticalfibre.py:50-52 | `int(int(2*r)/2)` is `floor(r)` for a non-negative cladding radius, and at most 0 for a negative one |
| Profile.Radii | opticalfibre.py:50-52 | the radii are `2m` consecutive integers from `-m` to `m-1`, or none when `m <= 0` |
| Profile.RadiiSpan | opticalfibre.py:50-52 | a non-negative cladding radius samples exactly the integers r with `-floor(r_clad) <= r < floor(r_clad)`, `2*floor(r_clad)` of them |
| Profile.RadiiOfNegativeCladding | opticalfibre.py:50-52 | a negative cladding radius samples no radius |
| Profile.StepIndices | opticalfibre.py:53-56 | one value per radius: the core index where `-a <= r <= a` (boundary included), the cladding index elsewhere |
| Profile.StepIndexIsCoreExactlyInCore | opticalfibre.py:53-56 | with distinct indices a sample has the core index if and only if its radius lies in the core |
| Profile.StepIndicesSymmetric | opticalfibre.py:53-56 | opposite radii get the same step index |
| Profile.GradedDelta | opticalfibre.py:58 | the recomputed difference satisfies `2 n1^2 d = n1^2 - n2^2`, never exceeds 1/2, and is non-negative when `n2^2 <= n1^2` |
| Fibre.Derive | opticalfibre.py:18-41 | raises incomplete information exactly when the core index is not given, or when neither the difference nor the cladding index is; raises core-below-cladding exactly in the explicit form with `n1 < n2`; on success records `n1`, the form's `n2`, `NA` and critical angle, `delta` only in the difference form, and the acceptance angle from `asin(NA)` |
| Fibre.CriticalArgumentInDomain | opticalfibre.py:26-29 | once `n2 <= n1` and `n2^2 <= n1^2`, `n2/n1` is a valid arcsine argument, so the critical-angle call never raises |
| Fibre.ApertureAtMostCoreIndex | opticalfibre.py:24-28 | in the explicit form with a positive core index, the numerical aperture never exceeds the core index: `0 <= NA <= n1` |
| Fibre.ExplicitFormAperture | opticalfibre.py:28 | in the explicit form `NA` is non-negative and `NA^2 = n1^2 - n2^2` |
| Fibre.ExplicitFormSucceeds | opticalfibre.py:24-30 | with both indices given, explicit construction succeeds if and only if `n2 <= n1` and `n1^2 - n2^2 <= 1` (with `n1^2 - n2^2 >= 0`); with `n1 >= n2` any failure is a math domain error |
| Fibre.EqualIndicesZeroAperture | opticalfibre.py:26-30 | equal core and cladding indices are accepted and give a zero numerical aperture |
| Fibre.DifferenceFormAperture | opticalfibre.py:36-41 | in the difference form `NA^2 = 2 delta n1^2`, and `NA >= 0` for a positive core index |
| Fibre.DifferenceFormSucceeds | opticalfibre.py:32-41 | with a core index and a difference given, construction succeeds if and only if `0 < delta <= 2` and `2 delta n1^2 <= 1` |
| Fibre.CladdingIgnoredInDifferenceForm | opticalfibre.py:19-41 | when a difference is given, the result does not depend on the cladding index passed |
| Fibre.ApertureExample | opticalfibre.py:24-30 | indices 1.48 and 1.46 give `NA^2 = 0.0588`, so `0.2424 < NA < 0.2425` |
| Fibre.GradedDeltaInRange | opticalfibre.py:58 | on every constructed fibre `n2^2 <= n1^2`, and the recomputed difference lies in `[0, 1/2]` |
| Fibre.GradedDeltaOfDifferenceForm | opticalfibre.py:58 | for a difference-form fibre the graded branch replaces `delta` with `delta - delta^2/2`, not the value the fibre was built with |
| Fibre.OpticalFibre.constructor | opticalfibre.py:18-41 | the object holds exactly the derived properties |
| Fibre.OpticalFibre.Create | opticalfibre.py:6-41 | construction fails with exactly the error `Derive` gives; on success it yields a fresh fibre whose fields are the derived properties |
| Fibre.OpticalFibre.PlotProfile | opticalfibre.py:49-66 | step: `delta` unchanged, and the result is the radii with their step indices; graded: `delta` becomes the recomputed difference, and the result is empty lists when there are no radii and a `NameError` otherwise; any other index kind: `UnboundLocalError` with nothing changed |

## Left out

- Plotting and printing: `plt.plot`/`show` and the construction's `print` calls are output only. The model returns the X and Y lists instead of drawing them.
- `math.sqrt`, `math.asin` and `math.degrees` are parameters (`Maths`). Only `sqrt` is constrained, to return the non-negative root. Their domains are checked where the source calls them. The angles are left uninterpreted.
- Floating point: every quantity is an exact real. Rounding in Python floats is not modelled; for instance 0.1 has no exact binary representation, so `0.1*24` is not exactly 2.4 as a double.
- `scipy.constants` is a parameter (`UnitConstants`). `Constants.SciPy` gives its SI values.
- Keyword-argument presence: every field is given. In `Channel`, `Transmitter` and `Reciever` a missing keyword leaves an attribute unset, and a later read raises `AttributeError`. `P2PSystem.__init__` (links.py:50-58) indexes `kwargs` directly, so a missing keyword raises `KeyError` at construction. `NewP2PSystem` takes every argument, and the model represents neither error.
- Unknown keyword arguments and positional `*args` are ignored by the source and are absent from the model.
- Reciever fields other than `sensitivity`, and channel fields other than `attenuation`, are stored but never used by the budget. They are kept as plain fields.
- Fibre.OpticalFibre.PlotProfile: the graded branch's Y values are not computed. As written, the formula calls `sqrt`, which `opticalfibre.py` never imports, so a non-empty graded list raises `NameError`. The model stops there and does not model the intended `n1*sqrt(1 - 2*delta*(r/a)^alpha)` profile. For the same reason `alpha` and a zero core radius play no part.
- The `index="Step"` default of the fibre constructor: `OpticalFibre.Create` always takes the profile kind as an argument, so a caller that omits it must pass "Step".
- Values of non-numeric or mixed types (such as a string index difference) are out of scope. Indices and differences are reals or absent.
