# sirens, modelled in Dafny

A model of the core of `sirens`, a small Python library that synthesises French
emergency-vehicle two-tone sirens. The model covers four parts:

- **Preset registry** (`presets.dfy`, module `Presets`).
  - Presets are maps from field names to values (number, text or list).
  - The validator checks the fields one after another and reports the first problem.
  - The module-level `PRESETS` table is a `Registry` object. Registration updates its one field in place.
- **Envelope and dB estimate** (`utils.dfy`, module `Utils`).
  - The envelope is a specification function built from a per-index multiplier: attack ramp, decay ramp over the tail when it fits, and 1 elsewhere. An array method fills the multiplier buffer the way the numpy slice assignments do, and is proved equal to that function.
  - `estimate_db` is a function of an injected `log10`/`round`. A `Lawful` predicate lists the facts about them that the lemmas use.
- **Tone generator and burst scheduler** (`generators.dfy`, module `Generators`; `schedule.dfy`, module `Schedule`).
  - `generate_sine_wave` is a function. It truncates the sample count, builds the two-harmonic sum from an injected `sin`, normalises by the peak magnitude and applies the envelope.
  - `generate_siren_signal` is a method with the source's `while` loop and inner `for` loop. It is proved equal to a pair of state functions, `SignalFrom` and `PairsFrom`.
  - `Schedule` proves those functions equal to a declarative plan: bursts of tone pairs separated by pauses. From the plan it derives:
    - the count of pairs and pauses;
    - the position of every piece;
    - the total length;
    - the amplitude bound;
    - the failure cases.
- **The Siren object** (`core.dfy`, module `Core`).
  - The constructor picks the preset, falling back to `"police"`. It adjusts the volume on a copy, reads the traffic table, counts the cycles and generates the samples.
  - `get_info` and `_estimate_db` are functions reading the object.

Python exceptions are `Failure` values of `Outcomes.Result`, with a `Fault` naming them:
- `InvalidPreset`: the `ValueError` that registration raises;
- `EmptySequence`: `min()` of an empty list;
- `ZeroDivision`;
- `ShapeMismatch`: numpy's broadcast error when the attack ramp does not fit the head of the buffer. That happens when the attack window is longer than the buffer and is not a single sample: a 1-sample ramp broadcasts into an empty slice.

Python's `int()` on a float is `PyNum.Trunc`, which truncates toward zero.

Three edge cases of the code are modelled as the code does them:

- A 1-sample decay window keeps its multiplier at 1, because `linspace(1, 0, 1)` is `[1.0]`. So the last sample is silenced only for decay windows longer than one sample.
- `estimate_db` returns `max_db` raw (neither capped nor rounded) when the distance is at most 0. Its docstring says night mode "limits to 90dB", but the cap holds only for positive distances. The estimate is also not monotone across distance 0: for a `max_db` of 109.96 it is 109.96 at distance 0 and round(109.96, 1) = 110.0 at 0.5 m. So monotonicity is stated for positive distances only.
- A `tone_duration` of 0 passes validation, but building a Siren from such a preset divides by zero.

## Model

| member | source | states |
|---|---|---|
| PyNum.Trunc | src/sirens/core.py:66 | Python's int() on a float truncates toward zero: the result r satisfies r ≤ x < r + 1 for x ≥ 0, and r - 1 < x ≤ r for x < 0 |
| Presets.Validate | src/sirens/presets/__init__.py:48-80 | the verdict is true exactly when no message is returned |
| Presets.FirstMissing | src/sirens/presets/__init__.py:57-61 | none means every required field is present; otherwise it is the first absent field in list order |
| Presets.FirstNotNonNegative | src/sirens/presets/__init__.py:71-74 | none means every numeric field is a non-negative number; otherwise it is the first that is not |
| Presets.ValidateAcceptsWellFormed | src/sirens/presets/__init__.py:57-80 | the validator returns (True, None) if and only if all fields are present, freqs has two positive numbers, the numeric fields are non-negative and volume is at most 1 |
| Presets.MissingFieldReported | src/sirens/presets/__init__.py:57-61 | a preset missing a required field is rejected with "Missing required field: <first missing field>" |
| Presets.AcceptedVolumeInUnitRange | src/sirens/presets/__init__.py:76-80 | every accepted preset has a numeric volume in [0, 1] |
| Presets.Freqs | src/sirens/presets/__init__.py:64-68 | both frequencies of a well-formed preset are positive |
| Presets.Number | src/sirens/presets/__init__.py:71-78 | a numeric field of a well-formed preset is non-negative, and the volume is at most 1 |
| Presets.Described | src/sirens/presets/__init__.py:104-107 | the stored preset keeps every given field and gains "Custom <name> siren" as description only when it had none |
| Presets.Registration | src/sirens/presets/__init__.py:100-109 | fails with "Invalid siren preset: <message>" exactly when validation fails; otherwise the table has the new key, the described preset under it, and every other entry unchanged |
| Presets.DescribedKeepsValidity | src/sirens/presets/__init__.py:104-109 | adding the default description does not change the validator's verdict |
| Presets.Descriptions | src/sirens/presets/__init__.py:118-121 | the listing has exactly the table's keys |
| Presets.ListingAfterRegistration | src/sirens/presets/__init__.py:104-121 | after a registration the listing gains the new name with its description or the default, and every other name keeps its description |
| Presets.BuiltinPresets | src/sirens/presets/__init__.py:4-45 | definition of the four built-in presets; their properties are in the row for BuiltinsGood |
| Presets.BuiltinsGood | src/sirens/presets/__init__.py:4-45 | the four built-in presets are well-formed and described, and "police" is among them |
| Presets.RegistrationKeepsGood | src/sirens/presets/__init__.py:100-109 | a successful registration keeps "police" and keeps every entry well-formed and described |
| Presets.Registry.constructor | src/sirens/presets/__init__.py:4-45 | the registry starts with the built-in table and satisfies its invariant |
| Presets.Registry.Register | src/sirens/presets/__init__.py:83-109 | rejects an invalid preset with the validator's message and leaves the table unchanged; otherwise the table becomes the registration result; the invariant is kept |
| Presets.Registry.AvailableSirens | src/sirens/presets/__init__.py:112-121 | the listing has exactly the registered names, each mapped to its description |
| Utils.Linspace | src/sirens/utils/__init__.py:28-32 | definition of element i of numpy.linspace(start, stop, num); its values are in the rows for RisingRamp and FallingRamp |
| Utils.RisingRamp | src/sirens/utils/__init__.py:27-28 | the attack ramp starts at 0, ends at 1 for windows of more than one sample, is i/(n-1) at i, and stays in [0, 1] |
| Utils.FallingRamp | src/sirens/utils/__init__.py:31-32 | the decay ramp starts at 1, ends at 0 for windows of more than one sample, is 1 - i/(n-1) at i, and stays in [0, 1] |
| Utils.Window | src/sirens/utils/__init__.py:19-20 | definition of int(seconds·sample_rate), a window length in samples; truncation is stated in the row for PyNum.Trunc |
| Utils.MultiplierInUnitRange | src/sirens/utils/__init__.py:24-32 | every envelope multiplier lies in [0, 1] |
| Utils.Enveloped | src/sirens/utils/__init__.py:7-35 | fails with a shape error exactly when the attack window is longer than the buffer and is not a single sample; otherwise keeps the length and never increases any sample's magnitude |
| Utils.EmptyBufferOneSampleAttack | src/sirens/utils/__init__.py:24-35 | a 1-sample attack window over an empty buffer broadcasts and gives the empty list, not a shape error |
| Utils.Multiplier | src/sirens/utils/__init__.py:24-32 | definition of the envelope value at index i; its properties are in the rows for MultiplierInUnitRange, AttackRamp, DecayRamp and OutsideWindowsUnchanged |
| Utils.NoWindowsIsIdentity | src/sirens/utils/__init__.py:19-35 | with empty attack and decay windows the output equals the input |
| Utils.AttackStartsSilent | src/sirens/utils/__init__.py:27-28 | with a non-empty attack window that fits, the first output sample is 0 |
| Utils.AttackRamp | src/sirens/utils/__init__.py:19-28 | inside the attack window and outside any decay ramp, sample i is scaled by i/(a-1), or by 0 when a is 1 |
| Utils.DecayRamp | src/sirens/utils/__init__.py:20-32 | when the decay ramp is written, its first index keeps its sample and the last sample becomes 0, except for a 1-sample window, which keeps it |
| Utils.DecayRampAt | src/sirens/utils/__init__.py:31-35 | for a decay window of d > 1 samples that fits, the sample at offset j of the tail is scaled by 1 - j/(d-1), replacing any attack value |
| Utils.OutsideWindowsUnchanged | src/sirens/utils/__init__.py:24-35 | indices outside both windows keep their sample |
| Utils.WriteRamp | src/sirens/utils/__init__.py:27-32 | the slice assignment writes the linspace values into exactly the slice and leaves the rest of the buffer unchanged |
| Utils.Envelope | src/sirens/utils/__init__.py:7-35 | the array version returns exactly the specification's result, including its failure |
| Utils.EstimateAtSource | src/sirens/utils/__init__.py:49-50 | at distance <= 0 the estimate is max_db itself |
| Utils.EstimateWithinOneMetre | src/sirens/utils/__init__.py:52-60 | within one metre nothing is subtracted: the estimate is max_db rounded by day, and min(max_db, 90) rounded at night |
| Utils.NightCap | src/sirens/utils/__init__.py:56-60 | in night mode at positive distance the estimate never exceeds 90 dB |
| Utils.EstimateDb | src/sirens/utils/__init__.py:38-60 | definition of estimate_db; its properties are in the rows for EstimateAtSource, EstimateWithinOneMetre, NightCap, EstimateNonIncreasing and EstimateExamples |
| Utils.EstimateNonIncreasing | src/sirens/utils/__init__.py:52-60 | for fixed max_db and mode, and for positive distances, the estimate does not grow with distance |
| Utils.EstimateExamples | src/sirens/utils/__init__.py:38-60 | a 110 dB source gives 90 dB at 10 m by day and at night, and 90 dB at 1 m at night |
| Generators.SeqMin | src/sirens/generators/__init__.py:34 | min() of a non-empty list is at most every element and is one of them |
| Generators.SeqMax | src/sirens/generators/__init__.py:34 | max() of a non-empty list is at least every element and is one of them |
| Generators.Peak | src/sirens/generators/__init__.py:34 | max(abs(min), abs(max)) bounds every magnitude and is reached by some sample |
| Generators.Normalized | src/sirens/generators/__init__.py:33-35 | fails with division by zero exactly when every sample is 0; otherwise same length, every sample in [-1, 1], and magnitude 1 reached |
| Generators.SegmentLength | src/sirens/generators/__init__.py:21 | definition of int(sample_rate·duration); the segment's length and failure are in the rows for SineWave and EmptyToneFails |
| Generators.SineWave | src/sirens/generators/__init__.py:8-38 | fails on an empty segment exactly when int(sample_rate*duration) <= 0; a segment that succeeds has exactly that many samples, all in [-1, 1] |
| Generators.JitterWithinOnePercent | src/sirens/generators/__init__.py:86-87 | a jittered frequency is within 1% of its nominal value |
| Generators.Combined | src/sirens/generators/__init__.py:21-31 | the two-harmonic sum has one value per sample index |
| Generators.Jittered | src/sirens/generators/__init__.py:86-87 | definition of freq + draw·(freq·0.01), the uniform draw over ±1%; its bound is in the row for JitterWithinOnePercent |
| Generators.PauseSamples | src/sirens/generators/__init__.py:92-95 | definition of the pause; its length and failure are in the rows for Zeros, RenderLength and ZeroDutyCycleFails |
| Generators.Zeros | src/sirens/generators/__init__.py:95 | [0] * n has max(n, 0) elements, all zero |
| Generators.PauseDuration | src/sirens/generators/__init__.py:94 | definition of tone_duration·2·(1 - duty_cycle)/duty_cycle; see the rows for RenderLength and SignalLength |
| Generators.GapLength | src/sirens/generators/__init__.py:92-95 | definition of the pause length int(pause_duration·sample_rate), counted as max(n, 0) by Zeros; used in the rows for RenderLength, SignalLength and SirenLength |
| Generators.Scale | src/sirens/generators/__init__.py:98 | [s·volume for s in signal] keeps the length; its bound is in the rows for ScaleWithinVolume and SignalAmplitude |
| Generators.SignalFrom | src/sirens/generators/__init__.py:77-95 | definition of the while loop from a given state; the loop and the plan are tied to it in the rows for EmitBursts and PlanMatchesLoop |
| Generators.PairsFrom | src/sirens/generators/__init__.py:84-91 | definition of the inner for loop from a given state; see the rows for EmitBursts and PlanMatchesLoop |
| Generators.SirenSignal | src/sirens/generators/__init__.py:41-98 | definition of generate_siren_signal's result; its properties are in the rows for GenerateSirenSignal and the Schedule lemmas |
| Generators.EmitBursts | src/sirens/generators/__init__.py:70-95 | the burst/pause loop returns exactly the signal of the loop specification for any tone generator, including its first failure; this covers the loop that ends by the pause's division by zero |
| Generators.GenerateSirenSignal | src/sirens/generators/__init__.py:41-98 | the generated signal is the loop's signal scaled by volume, or the loop's failure |
| Schedule.PlanMatchesLoop | src/sirens/generators/__init__.py:77-95 | rendering the plan of bursts and pauses gives the loop's result for every remaining count |
| Schedule.SirenSignalFollowsPlan | src/sirens/generators/__init__.py:70-98 | the signal succeeds exactly when the plan renders, with the same failure, and is then the rendered plan scaled by volume |
| Schedule.PausesBetweenBursts | src/sirens/generators/__init__.py:92-95 | the pause count P satisfies b*P < cycles <= b*(P+1), i.e. P = ceil(cycles/burst_size) - 1 |
| Schedule.PlanShape | src/sirens/generators/__init__.py:77-95 | the plan holds every pair exactly once, in order and low tone first, and has ceil(cycles/burst_size) - 1 pauses |
| Schedule.PlanLayout | src/sirens/generators/__init__.py:80-95 | piece j is in burst j/(2b+1); every burst but the last has burst_size pairs, low tone before high, and is followed by a pause |
| Schedule.PlanEdges | src/sirens/generators/__init__.py:84-90 | the signal starts with the first low tone and ends with the last high tone: no trailing pause |
| Schedule.RenderFailsAt | src/sirens/generators/__init__.py:89-95 | any piece that fails makes the whole signal fail |
| Schedule.RenderFirstFailure | src/sirens/generators/__init__.py:84-95 | when every piece before j renders and piece j raises, the signal fails with piece j's exception |
| Schedule.SineOscillatorShape | src/sirens/generators/__init__.py:21-38 | every tone the generator returns has the segment length and samples in [-1, 1] |
| Schedule.RenderLength | src/sirens/generators/__init__.py:77-95 | a rendered plan is as long as its tones times the segment length plus its pauses times the pause length |
| Schedule.RenderInUnitRange | src/sirens/generators/__init__.py:77-95 | a rendered plan has every sample in [-1, 1] |
| Schedule.NoCyclesNoSignal | src/sirens/generators/__init__.py:70-78 | cycles <= 0 gives the empty signal |
| Schedule.SignalLength | src/sirens/generators/__init__.py:70-98 | the signal has 2·cycles·segment + pauses·pause-length samples |
| Schedule.ScaleWithinVolume | src/sirens/generators/__init__.py:98 | scaling samples in [-1, 1] by volume bounds every sample by abs(volume) |
| Schedule.SignalAmplitude | src/sirens/generators/__init__.py:97-98 | every sample of a generated signal is at most abs(volume) in magnitude |
| Schedule.EmptyToneFails | src/sirens/generators/__init__.py:21-34 | with cycles to play and a segment length <= 0 the signal fails with the empty-sequence error |
| Schedule.ZeroDutyCycleFails | src/sirens/generators/__init__.py:92-95 | a zero duty cycle fails as soon as a pause is due; when no tone raises, the failure is the division by zero at the first pause |
| Schedule.NoBurstsNeverEnd | src/sirens/generators/__init__.py:77-81 | with burst_size <= 0 a positive remaining count never decreases, so the loop can end only by an exception |
| Schedule.StalledLoopDividesByZero | src/sirens/generators/__init__.py:77-95 | with burst_size <= 0, positive cycles and a zero duty cycle the first pause raises division by zero, and the signal is that failure |
| Schedule.BurstsEnd | src/sirens/generators/__init__.py:77-81 | with burst_size > 0 the loop has finished after at most `cycles` passes |
| Core.DistanceFactor | src/sirens/core.py:48-49 | the distance factor lies in (0, 1], is 1 within 10 m, and is 100/d² beyond |
| Core.DistanceFactorNonIncreasing | src/sirens/core.py:49 | the factor does not grow with distance |
| Core.NightVolume | src/sirens/core.py:44-46 | night mode halves the volume, and day leaves it unchanged |
| Core.AdjustedVolume | src/sirens/core.py:44-49 | the adjusted volume lies between 0 and the preset volume, at most half of it at night, and equals it by day within 10 m |
| Core.NightModeHalves | src/sirens/core.py:45-49 | at any distance the night volume is half the day volume |
| Core.VolumeNonIncreasingWithDistance | src/sirens/core.py:49 | the adjusted volume does not grow with distance |
| Core.PresetFor | src/sirens/core.py:33 | the named preset if registered, else "police"; well-formed whenever the table is |
| Core.Adjusted | src/sirens/core.py:33-49 | the Siren's copy differs from the preset only in its adjusted volume |
| Core.AdjustedKeepsWellFormed | src/sirens/core.py:33-49 | the adjusted copy is still well-formed, no louder, and has the same max_db |
| Core.TrafficPattern | src/sirens/core.py:51-63 | every density gives a duty cycle in (0, 1) and a burst size of at least 2 |
| Core.UnknownDensityIsMedium | src/sirens/core.py:60-63 | every density other than "heavy" and "light" behaves as "medium" |
| Core.HeavierTrafficSoundsMore | src/sirens/core.py:51-63 | light < medium < heavy in both the duty cycle and the burst size |
| Core.Cycles | src/sirens/core.py:65-66 | fails with division by zero exactly when tone_duration is 0; non-negative for non-negative inputs |
| Core.CyclesFitDuration | src/sirens/core.py:66 | the counted pairs fill at most duty_cycle·total_duration seconds, and one more pair would not fit |
| Core.ZeroToneDurationAcceptedButFails | src/sirens/core.py:66 | a preset with tone_duration 0 passes validation, yet its cycle count divides by zero |
| Core.DefaultSirenCycles | src/sirens/core.py:14-66 | the default Siren (police, 10 s, medium traffic) plays 10 tone pairs |
| Core.Siren.constructor | src/sirens/core.py:14-84 | fields follow the chosen preset, the volume-adjusted copy, the traffic table and the cycle count; the samples are the generated signal; the shared table is unchanged; the object invariant holds, so generated samples have the scheduled length and are bounded by the volume |
| Core.Siren.EstimatedDb | src/sirens/core.py:86-88 | at most 90 dB in night mode at positive distance; max_db at distance <= 0 |
| Core.Siren.GetInfo | src/sirens/core.py:90-101 | reports the preset's frequencies and max_db and the Siren's dB estimate, which is capped at 90 dB at night when the distance is positive |
| Core.SampleCount | src/sirens/core.py:65-84 | definition of the sample count a Siren's schedule gives; see the row for SirenLength |
| Core.SirenParamsEnd | src/sirens/core.py:52-84 | the arguments a Siren passes to the generator always let its loop end: a positive burst size, and a volume in [0, 1] |
| Core.SirenLength | src/sirens/core.py:65-84 | a Siren's stored samples hold its tone pairs and pauses exactly: 2·cycles·segment + pauses·pause-length samples |
| Core.SirenAmplitude | src/sirens/core.py:69-84 | every stored sample of a Siren is at most its adjusted volume in magnitude |

## Left out

- Playback (`write_wav`, `play_audio`), the command line, the examples and the tests: these do file and process I/O, or only drive the library. `Siren.write` and `Siren.play`, and the timestamped default file name, use the clock and I/O and are left out with them.
- `math.sin`, `math.log10`, `round(x, 1)` and `random.uniform` are parameters.
  - `sin` is an arbitrary function, so the tone values themselves are not computed.
  - `log10` and `round` are assumed only monotone, with log10(1) = 0, log10(10) = 1, and round fixing whole numbers.
  - The k-th `random.uniform` call is `draw(k)`, a fraction in [-1, 1] of the ±1% half-width. The draws for freq1 and freq2 alternate as in the loop.
- Floating point: all arithmetic is on exact reals, so IEEE rounding (for example in linspace or in the normalisation) is not modelled.
- Python typing: `bool` counts as a number for `isinstance(…, (int, float))`, and ints and floats are distinct types. Preset values are numbers, text or lists, with no separate int, float or bool.
- Presets.Registry.Register: when the caller's preset already has a description, Python stores the caller's own dict, so later changes to it show in `PRESETS`. The model stores a value and does not capture that aliasing.
- Core.Siren.constructor: `__init__` raising is modelled as a `Failure` in the `cycles` and `samples` fields of an otherwise built object, not as the absence of an object. The `presets` attribute, an alias of the shared table, is read during construction and not stored.
- Generators.GenerateSirenSignal: it requires `burst_size > 0`, `cycles <= 0` or a zero duty cycle. The one case excluded is `burst_size <= 0` with positive cycles and a non-zero duty cycle: there the Python loop never ends, and no terminating method can model it. With a zero duty cycle the first pause raises `ZeroDivisionError`, and the model returns that failure (`Schedule.StalledLoopDividesByZero`). Every Siren passes a burst size of 2, 4 or 6.
- Schedule.NoBurstsNeverEnd: it states only that the remaining count never falls when `burst_size <= 0`. Non-termination itself cannot be stated by terminating functions, and with a zero duty cycle the loop does end, by an exception.
- Default arguments: `Siren(name="police", total_duration=10, night_mode=False, traffic_density="medium", distance=10)` and `estimate_db(..., night_mode=False)` have no defaults in the model. Every argument is passed explicitly. `Core.DefaultSirenCycles` uses the default values.
- Generators.EmitBursts: the loop is proved for any tone generator passed in. `GenerateSirenSignal` passes the sine generator.
- The pause is `[0] * n`, a list of integer zeros in Python. The model uses real zeros.
