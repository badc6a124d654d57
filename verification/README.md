# SpECTRE core pieces in Dafny

This project models four pieces of the SpECTRE numerical-relativity code:

- **The CCE worldtube mode recorder** (`WorldtubeModeRecorder.cpp`). It writes one row per call: the time, then the spherical-harmonic modes of one Bondi quantity. It also builds the legend naming each column. Spin-0 (real) data drops the negative `m` modes and the imaginary part of `m = 0`.
- **The worldtube buffer updater helpers** (`WorldtubeBufferUpdater.hpp`). These are:
  - the component dataset names (`"/g"` with indices 0, 1 becomes `"/gxy"`);
  - the time-range test;
  - the extraction-radius accessor;
  - the documented contracts of the span and buffer-update functions.
- **The local-time-stepping step-size decision** `change_step_size` and the `Actions::ChangeStepSize` action (`ChangeStepSize.hpp`). After a step, the decision either accepts it and records the next step size, or rejects it. A rejection changes the step and jumps back to the first `UpdateU` action.
- **The GRMHD blast-wave initial data** (`BlastWave.cpp`):
  - the geometry option;
  - the constructor's check;
  - equality;
  - the three-region piecewise profile (inner, log-linear transition, outer);
  - the constant fields.

Files:

| file | module | contents |
|---|---|---|
| `wrappers.dfy` | `Wrappers` | `Option` and `Result` |
| `decimal.dfy` | `Decimal` | decimal text of integers and its parser |
| `worldtube_mode_recorder.dfy` | `WorldtubeModeRecorder` | row layout, legend, data row |
| `worldtube_buffer_updater.dfy` | `WorldtubeBufferUpdater` | dataset names, time range, span and update contracts |
| `change_step_size.dfy` | `TimeActions` | step-size decision and action |
| `blast_wave.dfy` | `BlastWave` | blast-wave initial data |

Collaborators defined in other SpECTRE files are parameters, so every property holds whatever they compute:

- **Recorder:** `goldberg_mode_index` is a function parameter.
- **Step-size decision:** the time stepper, the step choosers, `TimeStepRequestProcessor` and `choose_lts_step_size` are the fields of `TimeActions.Helpers`, plus a sequence of choosers.
- **Blast wave:** `sqrt`, `exp` and `log` are the fields of `BlastWave.Numerics`.

Other modelling choices:

- **Errors:** an `ERROR` or `PARSE_ERROR`, and the `ASSERT`s of `change_step_size`, become the `Failure` branch of a `Result`. The one exception is the index assertion of `dataset_name_for_component`, which is a precondition (see "## Left out").
- **Number types:** doubles are `real`. The one place where a C++ integer width matters (`1 << 31`) is modelled bit-exactly. A `TimeDelta` is its value together with its slab duration (see "## Left out").

Where code and comments disagree, the model follows the code:

- **`time_is_outside_range`:** the base-class documentation (`WorldtubeBufferUpdater.hpp:143-146`) says the override returns `true` when the time *can* be used. The Bondi and Klein-Gordon overrides return `true` when the time lies *outside* the buffer, and the model follows them.
- **`Tags::Next<Tags::TimeStep>`:** the action's documentation lists only `Tags::Next<Tags::TimeStepId>` and `Tags::TimeStep` as modified. `change_step_size` writes `Tags::Next<Tags::TimeStep>` on both acceptance and rejection. The action also increments the step-rejection counter on rejection.
- **`compute_piecewise` boundaries:** its comment promises the inner value for `r < inner_radius`. Blaze's `step_function(0) == 1`, so the inner value also holds at `r == inner_radius`, and the outer value at `r == outer_radius`. `BlastWave.MasksPartition` states the boundaries as the code computes them.

## Model

| member | source | states |
|---|---|---|
| WorldtubeModeRecorder.DatasetLabel | src/Evolution/Systems/Cce/WorldtubeModeRecorder.cpp:21-64 | every Bondi quantity's subfile label reads back as that quantity |
| WorldtubeModeRecorder.DatasetLabelsDistinct | src/Evolution/Systems/Cce/WorldtubeModeRecorder.cpp:21-64 | two quantities share a subfile label exactly when they are the same quantity |
| WorldtubeModeRecorder.DataToWriteSize | src/Evolution/Systems/Cce/WorldtubeModeRecorder.cpp:141-143 | a row holds at least two values, and a complex row has twice the mode columns of a real one (2 * real size - 1) |
| WorldtubeModeRecorder.ModesBelowLength | src/Evolution/Systems/Cce/WorldtubeModeRecorder.cpp:112-125 | the modes with l below lEnd number lEnd^2 (real) or 2 lEnd^2 (complex): the sum of 2l+1 over l |
| WorldtubeModeRecorder.LayoutLength | src/Evolution/Systems/Cce/WorldtubeModeRecorder.cpp:128-143 | the row has exactly `data_to_write_size(is_real)` entries, never more than the complex size the buffer is reserved with |
| WorldtubeModeRecorder.LayoutContents | src/Evolution/Systems/Cce/WorldtubeModeRecorder.cpp:112-125 | a mode column appears in the row iff l <= l_max and \|m\| <= l, with m >= 0 and no imaginary m = 0 part for real data; the time is always present |
| WorldtubeModeRecorder.LayoutOrdered | src/Evolution/Systems/Cce/WorldtubeModeRecorder.cpp:115-125 | the row is strictly ordered: time, then l ascending, m ascending, real before imaginary; so no column is written twice |
| Decimal.IntToString | src/Evolution/Systems/Cce/WorldtubeModeRecorder.cpp:159-162 | the streamed decimal text of an integer is non-empty, starts with '-' exactly for negative values, and is otherwise all digits |
| WorldtubeModeRecorder.LabelShape | src/Evolution/Systems/Cce/WorldtubeModeRecorder.cpp:155-162 | a legend label is "Time" exactly for the time column; a mode label starts with the prefix of its part, "Re(" or "Im(", and ends with ')' |
| Decimal.ParseIntToString | src/Evolution/Systems/Cce/WorldtubeModeRecorder.cpp:158-161 | the decimal text the legend streams for an integer parses back to that integer |
| WorldtubeModeRecorder.ParseLabelRoundTrip | src/Evolution/Systems/Cce/WorldtubeModeRecorder.cpp:155-165 | a legend label "Time", "Re(l,m)" or "Im(l,m)" parses back to the column it names |
| WorldtubeModeRecorder.LabelInjective | src/Evolution/Systems/Cce/WorldtubeModeRecorder.cpp:155-165 | two columns have the same label iff they are the same column |
| WorldtubeModeRecorder.LegendDistinct | src/Evolution/Systems/Cce/WorldtubeModeRecorder.cpp:152-167 | no two legend entries are equal |
| WorldtubeModeRecorder.AppendLabelsOfEll | src/Evolution/Systems/Cce/WorldtubeModeRecorder.cpp:157-164 | the inner loop appends, in order, the labels of every column written for one l |
| WorldtubeModeRecorder.BuildLegend | src/Evolution/Systems/Cce/WorldtubeModeRecorder.cpp:152-167 | the legend labels the row layout entry by entry, starts with "Time" and has `data_to_write_size` entries |
| WorldtubeModeRecorder.NewRecorder | src/Evolution/Systems/Cce/WorldtubeModeRecorder.cpp:67-74 | the constructor builds a complex and a real legend, each labelling its layout, of the two row sizes |
| WorldtubeModeRecorder.AppendModesOfEll | src/Evolution/Systems/Cce/WorldtubeModeRecorder.cpp:116-124 | the inner loop appends, in order, the real and (where written) imaginary part of each mode of one l |
| WorldtubeModeRecorder.LegendDescribesRow | src/Evolution/Systems/Cce/WorldtubeModeRecorder.cpp:133-137 | a row built in layout order is described column by column by the legend of that layout |
| WorldtubeModeRecorder.AppendModalData | src/Evolution/Systems/Cce/WorldtubeModeRecorder.cpp:96-139 | the row and the chosen legend (real iff spin 0) have `data_to_write_size` entries, start with the time, and the k-th label names the k-th value: "Re(l,m)" holds the real part of mode (l, m) |
| WorldtubeBufferUpdater.DatasetNameForComponent | src/Evolution/Systems/Cce/WorldtubeBufferUpdater.hpp:59-74 | the name is the base name followed by one axis letter per index, in argument order |
| WorldtubeBufferUpdater.DatasetNameRoundTrip | src/Evolution/Systems/Cce/WorldtubeBufferUpdater.hpp:59-74 | the letters after the base name read back as the tensor indices the name was built from |
| WorldtubeBufferUpdater.DatasetNameExample | src/Evolution/Systems/Cce/WorldtubeBufferUpdater.hpp:60-62 | ("/g", 0, 1) names "/gxy" |
| WorldtubeBufferUpdater.TimeIsOutsideRange | src/Evolution/Systems/Cce/WorldtubeBufferUpdater.hpp:311-314 | for a sorted buffer, the first and last buffer times are inside the range, and a time outside it lies in no buffer interval |
| WorldtubeBufferUpdater.OutsideRangeIffNotBracketed | src/Evolution/Systems/Cce/WorldtubeBufferUpdater.hpp:310-314 | for a sorted time buffer, a time is inside the range iff some buffer interval contains it; both end times count as inside |
| WorldtubeBufferUpdater.GetExtractionRadius | src/Evolution/Systems/Cce/WorldtubeBufferUpdater.hpp:321-329 | an error exactly when no radius was set or parsed, otherwise the stored radius |
| WorldtubeBufferUpdater.CenteredSpan | src/Evolution/Systems/Cce/WorldtubeBufferUpdater.hpp:76-84 | the span contract can always be met: a span of width 2 interpolator_length + pad, within the bounds when they leave room, centred when it fits, starting at the lower bound otherwise |
| WorldtubeBufferUpdater.SpanForcedByTightBounds | src/Evolution/Systems/Cce/WorldtubeBufferUpdater.hpp:76-84 | when the bounds are too tight, the contract determines the span completely and it runs past the upper bound |
| WorldtubeBufferUpdater.RepeatedUpdatesKeepBuffers | src/Evolution/Systems/Cce/WorldtubeBufferUpdater.hpp:209-214 | under the update contract, any run of calls before the returned next-update time leaves the buffers and the returned time unchanged |
| TimeActions.PopcountOneIffPowerOfTwo | src/Time/Actions/ChangeStepSize.hpp:108-110 | the popcount assertion on a fixed LTS ratio admits exactly the powers of two |
| TimeActions.CanChangeStepSize | src/Time/Actions/ChangeStepSize.hpp:85-96 | the short-circuit scan over the histories allows a change iff every history allows it |
| TimeActions.RunChoosers | src/Time/Actions/ChangeStepSize.hpp:114-123 | the step is accepted iff every step chooser accepts it |
| TimeActions.ChangeStepSizeWith | src/Time/Actions/ChangeStepSize.hpp:76-210 | a substep fails with `ChangeOnSubstep` exactly when the substep is nonzero, and a fixed ratio that is not a power of two fails; when a history forbids a change the step stands untouched exactly when the hard limit is not violated; when a change is allowed the decision succeeds exactly when the desired step reaches the minimum and the relative bound, the chosen step reaches the minimum, an accepted step violates no hard limit and a rejected step is retaken at a different size; every other failure carries its cause (the desired or chosen step below the minimum, the violated hard limit, the unchanged retake); with a fixed ratio the step is always accepted, otherwise accepted iff all choosers accept; a change respects the minimum step and the relative bound and writes the next step chosen at the end of the current one; rejection retakes the step from its start with a different size and the matching next id; only the step tags change |
| TimeActions.ChangeStepSize | src/Time/Actions/ChangeStepSize.hpp:151-162 | with the intended bound, every desired step of a change is at least 2^-31 of its slab |
| TimeActions.SmallestRelativeStepSizeAsWritten | src/Time/Actions/ChangeStepSize.hpp:151 | `1.0 / (1 << 31)` with a 32-bit int shift is exactly -2^-31, so negative |
| TimeActions.AsWrittenGuardIsDead | src/Time/Actions/ChangeStepSize.hpp:151-153 | no step size is below the as-written bound, so the guard never fires |
| TimeActions.ChangeStepSizeAsWritten | src/Time/Actions/ChangeStepSize.hpp:151-162 | the decision as written never reports an unrepresentable step |
| TimeActions.AsWrittenGuardMissesTinyStep | src/Time/Actions/ChangeStepSize.hpp:151-162 | a desired step of 2^-32 of a unit slab passes the as-written guard and is stopped by the intended one |
| TimeActions.ApplyAsWrittenContinuesOnTinyStep | src/Time/Actions/ChangeStepSize.hpp:258-266 | the action as written goes on with a step of 2^-32 of a unit slab, accepting it and recording it as the next step, while with the intended bound the same input is an error |
| TimeActions.IndexOfUpdateU | src/Time/Actions/ChangeStepSize.hpp:274-275 | the jump target is the first `UpdateU` in the action list |
| TimeActions.ApplyChangeStepSize | src/Time/Actions/ChangeStepSize.hpp:243-277 | for the decision with a given representability bound (the source's action is the one with `SmallestRelativeStepSizeAsWritten()`): a substep changes nothing; otherwise the decision's errors propagate, a rejection jumps to the first `UpdateU` and counts exactly one more rejection, an acceptance does not jump, and the fraction-change counter is untouched |
| BlastWave.GeometryName | src/PointwiseFunctions/AnalyticData/GrMhd/BlastWave.cpp:243-258 | every geometry's option name parses back to that geometry |
| BlastWave.ParseGeometry | src/PointwiseFunctions/AnalyticData/GrMhd/BlastWave.cpp:243-258 | the option parses iff it is "Cylindrical" or "Spherical", to the geometry of that name; anything else is an error carrying the text |
| BlastWave.Create | src/PointwiseFunctions/AnalyticData/GrMhd/BlastWave.cpp:60-82 | construction succeeds iff inner radius < outer radius; the parameters are stored, the equation of state is built from the adiabatic index and the background spacetime is the default one |
| BlastWave.Equal | src/PointwiseFunctions/AnalyticData/GrMhd/BlastWave.cpp:195-205 | two blast waves are equal iff they agree once the equation of state and background spacetime are disregarded |
| BlastWave.NotEqual | src/PointwiseFunctions/AnalyticData/GrMhd/BlastWave.cpp:207-209 | two blast waves differ iff they differ in some field other than the equation of state and background spacetime |
| BlastWave.EqualityIgnoresSolverObjects | src/PointwiseFunctions/AnalyticData/GrMhd/BlastWave.cpp:195-209 | equality is reflexive, ignores the equation of state and the background spacetime, and `!=` sees a changed radius |
| BlastWave.EqualMatchesStructuralEquality | src/PointwiseFunctions/AnalyticData/GrMhd/BlastWave.cpp:195-209 | for constructed values, `==` is structural equality up to the background spacetime, is symmetric, and `!=` is its negation |
| BlastWave.RadiusCoordinates | src/PointwiseFunctions/AnalyticData/GrMhd/BlastWave.cpp:30-35 | the cylindrical radius ignores z; the spherical one adds z^2 |
| BlastWave.MasksPartition | src/PointwiseFunctions/AnalyticData/GrMhd/BlastWave.cpp:42-53 | with inner < outer, exactly one mask is one: inner for r <= inner radius, outer for r >= outer radius, transition strictly between |
| BlastWave.MasksOverlapForEqualRadii | src/PointwiseFunctions/AnalyticData/GrMhd/BlastWave.cpp:76-81 | with equal radii the masks double-count, which the constructor's check excludes |
| BlastWave.TransitionExponentEnds | src/PointwiseFunctions/AnalyticData/GrMhd/BlastWave.cpp:50-53 | the transition exponent is log(inner value) at the inner radius and log(outer value) at the outer radius |
| BlastWave.ComputePiecewise | src/PointwiseFunctions/AnalyticData/GrMhd/BlastWave.cpp:24-55 | the value is the inner value up to the inner radius, the outer value from the outer radius on, and the log-linear transition strictly between |
| BlastWave.TransitionMeetsEnds | src/PointwiseFunctions/AnalyticData/GrMhd/BlastWave.cpp:50-53 | where exp inverts log on the two values, the transition meets them at the radii |
| BlastWave.Variables | src/PointwiseFunctions/AnalyticData/GrMhd/BlastWave.cpp:105-150 | density and pressure take their inner and outer values, and the electron fraction 0.1 and 0.4, in the inner and outer regions |
| BlastWave.UniformFields | src/PointwiseFunctions/AnalyticData/GrMhd/BlastWave.cpp:123-177 | velocity is zero, Lorentz factor one, divergence-cleaning field zero and the magnetic field the configured constant, at every point |

## Left out

- HDF5 output: opening the file, `try_insert`, `append`, `close_current_object`, the subfile path. The recorder model returns the legend and the row it would write.
- The nodal `append_modal_data` overload (`WorldtubeModeRecorder.cpp:76-94`), which first converts nodal data with `swsh_transform`: spectral numerics defined in other SpECTRE files. `goldberg_mode_index` is a parameter that `AppendModalData` requires to index inside the modal data.
- The recorder buffer's capacity assertion and the `reserve` calls: allocation has no observable effect here.
- Charm++ serialisation (`pup`, migration constructors), `get_clone`, and the updater class hierarchy and its H5 readers: I/O and runtime plumbing.
- `update_buffers_for_time` and `create_span_for_time_value` themselves: their bodies are in a source file that is not part of this model. Only their documented contracts are modelled.
- WorldtubeBufferUpdater.CenteredSpan: centres on a buffer index rather than on `time`. Finding the index nearest to `time` needs the implementation, which is defined in another SpECTRE file.
- `get_l_max`, `has_version_history` and the plain getters of the updaters: they return stored fields.
- The specific internal energy and specific enthalpy of the blast wave: equation-of-state numerics in other files.
- BlastWave.Variables: requires a value built by `BlastWave.Create`. A blast wave with equal radii cannot be constructed, and with them the transition formula divides by zero.
- Floating point: doubles are `real`. Rounding, NaN and infinity are not modelled. `sqrt`, `exp` and `log` are parameters, so `BlastWave.TransitionMeetsEnds` assumes `exp(log(v)) == v` where it needs it.
- TimeActions.ChangeStepSizeWith: requires a nonzero slab duration, which every slab has. Type-level choices about which step choosers are used (`StepChoosersToUse`) are not modelled.
- WorldtubeBufferUpdater.DatasetNameForComponent: the assertion that every index is below 3 is a precondition, not an error result; a caller passing a larger index is outside the model.
- TimeActions.ChangeStepSizeWith: SpECTRE's `Time` and `TimeDelta` are exact fractions of a slab. The model keeps a `TimeDelta` as its value (a `real`) and its slab duration, and a time as its value. So `step_time() + current_step` is real addition, and `*time_step != current_step` compares the value and the slab duration, not the slab itself or the exact fraction.
- BlastWave.ComputePiecewise: the region values assume a finite transition term. The source evaluates the masked-off transition term too, and `0 * inf` is NaN. For example, radii 0.8 and 1.0 with electron fractions 0.1 and 0.4 give an exponent near 713 at r = 104. `exp` overflows there, and the source's electron fraction is NaN where the model gives 0.4. The same holds when an inner or outer value is at most 0, where `log` is not finite.
- The `static_assert` that the action list contains `UpdateU`: a compile-time check, modelled as the precondition of `TimeActions.ApplyChangeStepSize`.

## Findings

| source | as written | input that shows it | evidently intended | confidence | as-written member | corrected member |
|---|---|---|---|---|---|---|
| src/Time/Actions/ChangeStepSize.hpp:151-162 | `1.0 / (1 << 31)` shifts a 32-bit `int`; 2^31 wraps to -2^31, so the bound is -2^-31 and `abs(...) < bound` never holds | a desired step of 2^-32 with slab duration 1 and no minimum time step | a bound of +2^-31 (e.g. `1.0 / (1LL << 31)`), stopping steps that are not representable as a slab fraction | not executed | TimeActions.ChangeStepSizeAsWritten | TimeActions.ChangeStepSize |
