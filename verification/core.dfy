/**
 * The Siren object: picks a preset, derives the playback volume from night mode and
 * distance, the burst pattern from traffic density and the number of tone pairs from
 * the requested duration, then generates its samples once.
 */
module Core {
  import opened Outcomes
  import opened PyNum
  import opened Presets
  import Utils
  import Generators
  import Schedule

  /** Every Siren renders at 44100 samples per second. */
  const SampleRate: int := 44100

  /** The distance (in metres) within which the volume is not attenuated. */
  const ReferenceDistance: real := 10.0

  // ---------------------------------------------------------------- volume

  function Square(x: real): real {
    x * x
  }

  /**
   * min(1.0, (10 / max(1, distance)) ** 2): the inverse-square attenuation, never an
   * amplification, and none at all within ten metres.
   */
  function DistanceFactor(distance: real): (f: real)
    ensures 0.0 < f <= 1.0
    ensures distance <= ReferenceDistance ==> f == 1.0
    ensures ReferenceDistance < distance ==> f * Square(distance) == 100.0
  {
    var q := ReferenceDistance / Max(1.0, distance);
    QuotientBounds(distance);
    Min(1.0, Square(q))
  }

  lemma QuotientBounds(distance: real)
    ensures var q := ReferenceDistance / Max(1.0, distance);
      && 0.0 < q
      && (distance <= ReferenceDistance ==> 1.0 <= Square(q))
      && (ReferenceDistance < distance ==> Square(q) < 1.0 && Square(q) * Square(distance) == 100.0)
  {
    var d := Max(1.0, distance);
    var q := ReferenceDistance / d;
    assert q * d == ReferenceDistance;
    if distance <= ReferenceDistance {
      assert 1.0 <= q;
      assert 1.0 <= q * q;
    } else {
      assert d == distance;
      assert q < 1.0;
      assert q * q < 1.0 * 1.0 by { assert q * q < q; }
      calc {
        Square(q) * Square(distance);
        (q * d) * (q * d);
        ReferenceDistance * ReferenceDistance;
      }
    }
  }

  /** Moving the listener further away never makes the siren louder. */
  lemma DistanceFactorNonIncreasing(near: real, far: real)
    requires near <= far
    ensures DistanceFactor(far) <= DistanceFactor(near)
  {
    if ReferenceDistance < near {
      QuotientBounds(near);
      QuotientBounds(far);
      QuotientAntitone(near, far);
      SquareMonotone(ReferenceDistance / far, ReferenceDistance / near);
    }
  }

  lemma QuotientAntitone(x: real, y: real)
    requires 0.0 < x <= y
    ensures ReferenceDistance / y <= ReferenceDistance / x
  {
    var a := ReferenceDistance / x;
    var b := ReferenceDistance / y;
    assert a * x == ReferenceDistance && b * y == ReferenceDistance;
    assert b * x <= b * y;
  }

  lemma SquareMonotone(b: real, a: real)
    requires 0.0 <= b <= a
    ensures Square(b) <= Square(a)
  {
    assert b * b <= a * b;
  }

  lemma ScaleDown(v: real, f: real)
    ensures 0.0 <= v && 0.0 <= f <= 1.0 ==> 0.0 <= v * f <= v
  {
    if 0.0 <= v && 0.0 <= f <= 1.0 {
      assert v * f <= v * 1.0;
    }
  }

  /** The preset volume after the night-mode halving and the distance attenuation, in that order. */
  function AdjustedVolume(volume: real, nightMode: bool, distance: real): (v: real)
    ensures 0.0 <= volume ==> 0.0 <= v <= volume
    ensures 0.0 <= volume && nightMode ==> v <= volume * 0.5
    ensures !nightMode && distance <= ReferenceDistance ==> v == volume
  {
    var f := DistanceFactor(distance);
    NightThenDistance(volume, nightMode, f);
    NightVolume(volume, nightMode) * f
  }

  /** The volume after the night-mode halving alone. */
  function NightVolume(volume: real, nightMode: bool): (h: real)
    ensures 0.0 <= volume ==> 0.0 <= h <= volume
    ensures nightMode ==> h == volume * 0.5
    ensures !nightMode ==> h == volume
  {
    if nightMode then volume * 0.5 else volume
  }

  lemma NightThenDistance(volume: real, nightMode: bool, f: real)
    requires 0.0 < f <= 1.0
    ensures 0.0 <= volume ==> 0.0 <= NightVolume(volume, nightMode) * f <= volume
    ensures 0.0 <= volume && nightMode ==> NightVolume(volume, nightMode) * f <= volume * 0.5
  {
    ScaleDown(NightVolume(volume, nightMode), f);
  }

  /** Night mode halves whatever volume the day setting would give at the same distance. */
  lemma NightModeHalves(volume: real, distance: real)
    ensures AdjustedVolume(volume, true, distance) == AdjustedVolume(volume, false, distance) * 0.5
  {
  }

  /** The adjusted volume does not grow with distance. */
  lemma VolumeNonIncreasingWithDistance(volume: real, nightMode: bool, near: real, far: real)
    requires 0.0 <= volume && near <= far
    ensures AdjustedVolume(volume, nightMode, far) <= AdjustedVolume(volume, nightMode, near)
  {
    DistanceFactorNonIncreasing(near, far);
    var v := if nightMode then volume * 0.5 else volume;
    assert v * DistanceFactor(far) <= v * DistanceFactor(near);
  }

  // ---------------------------------------------------------------- preset choice

  /** presets.get(name, presets["police"]): the named preset, falling back to "police". */
  function PresetFor(presets: map<string, Preset>, name: string): (q: Preset)
    requires "police" in presets
    ensures name in presets ==> q == presets[name]
    ensures name !in presets ==> q == presets["police"]
    ensures GoodTable(presets) ==> WellFormed(q)
  {
    if name in presets then presets[name] else presets["police"]
  }

  /** The Siren's private copy of its preset, with only the volume entry replaced. */
  function Adjusted(preset: Preset, nightMode: bool, distance: real): (q: Preset)
    requires "volume" in preset && preset["volume"].Num?
    ensures q.Keys == preset.Keys
    ensures forall f :: f in preset && f != "volume" ==> q[f] == preset[f]
    ensures q["volume"] == Num(AdjustedVolume(preset["volume"].x, nightMode, distance))
  {
    preset["volume" := Num(AdjustedVolume(preset["volume"].x, nightMode, distance))]
  }

  /** The adjusted copy is still an acceptable preset, with a volume no louder than the original. */
  lemma AdjustedKeepsWellFormed(preset: Preset, nightMode: bool, distance: real)
    requires WellFormed(preset)
    ensures WellFormed(Adjusted(preset, nightMode, distance))
    ensures Number(Adjusted(preset, nightMode, distance), "volume") <= Number(preset, "volume")
    ensures Number(Adjusted(preset, nightMode, distance), "max_db") == Number(preset, "max_db")
  {
    var q := Adjusted(preset, nightMode, distance);
    assert IsNonNegativeNumber(preset["volume"]);
    assert q["freqs"] == preset["freqs"];
    assert WellFormed(q);
  }

  // ---------------------------------------------------------------- traffic and duration

  /** The burst pattern for a traffic density: (duty cycle, tone pairs per burst). */
  datatype Pattern = Pattern(dutyCycle: real, burstSize: int)

  function TrafficPattern(density: string): (r: Pattern)
    ensures 0.0 < r.dutyCycle < 1.0 && 2 <= r.burstSize
  {
    if density == "heavy" then Pattern(0.9, 6)
    else if density == "light" then Pattern(0.6, 2)
    else Pattern(0.8, 4)
  }

  /** Any density other than "heavy" and "light" is treated as "medium". */
  lemma UnknownDensityIsMedium(density: string)
    requires density != "heavy" && density != "light"
    ensures TrafficPattern(density) == TrafficPattern("medium")
  {
  }

  /** Denser traffic means longer bursts and a larger share of sounding time. */
  lemma HeavierTrafficSoundsMore()
    ensures TrafficPattern("light").dutyCycle < TrafficPattern("medium").dutyCycle < TrafficPattern("heavy").dutyCycle
    ensures TrafficPattern("light").burstSize < TrafficPattern("medium").burstSize < TrafficPattern("heavy").burstSize
  {
  }

  /** int(total_duration / (2 * tone_duration) * duty_cycle), which raises on a zero tone duration. */
  function Cycles(totalDuration: real, toneDuration: real, dutyCycle: real): (r: Result<int, Fault>)
    ensures r.Failure? <==> toneDuration == 0.0
    ensures r.Failure? ==> r.error == ZeroDivision
    ensures r.Success? && 0.0 <= totalDuration && 0.0 < toneDuration && 0.0 <= dutyCycle ==> 0 <= r.value
  {
    if toneDuration == 0.0 then Failure(ZeroDivision)
    else
      var x := totalDuration / (2.0 * toneDuration) * dutyCycle;
      assert 0.0 <= totalDuration && 0.0 < toneDuration && 0.0 <= dutyCycle ==> 0.0 <= x;
      Success(Trunc(x))
  }

  /**
   * The tone pairs fit into the duty-cycle share of the requested duration, and one
   * more pair would not.
   */
  lemma CyclesFitDuration(totalDuration: real, toneDuration: real, dutyCycle: real)
    requires 0.0 <= totalDuration && 0.0 < toneDuration && 0.0 <= dutyCycle
    ensures var c := Cycles(totalDuration, toneDuration, dutyCycle).value;
      && c as real * (2.0 * toneDuration) <= totalDuration * dutyCycle
      && totalDuration * dutyCycle < (c + 1) as real * (2.0 * toneDuration)
  {
    var t := 2.0 * toneDuration;
    var x := totalDuration / (2.0 * toneDuration) * dutyCycle;
    var c := Cycles(totalDuration, toneDuration, dutyCycle).value;
    assert c == Trunc(x);
    assert x * t == totalDuration * dutyCycle;
    assert 0.0 <= x;
    assert c as real * t <= x * t;
    assert x < (c + 1) as real;
    StrictlyScaled(x, (c + 1) as real, 2.0 * toneDuration);
    assert x * (2.0 * toneDuration) == totalDuration * dutyCycle;
    assert totalDuration * dutyCycle < (c + 1) as real * (2.0 * toneDuration);
  }

  lemma StrictlyScaled(a: real, b: real, t: real)
    requires a < b && 0.0 < t
    ensures a * t < b * t
  {
  }

  /** A preset with a zero tone duration passes validation, yet a Siren built on it cannot count its cycles. */
  lemma ZeroToneDurationAcceptedButFails(totalDuration: real, dutyCycle: real)
    ensures var q := BuiltinPresets()["police"]["tone_duration" := Num(0.0)];
      && Validate(q).0
      && Cycles(totalDuration, 0.0, dutyCycle) == Failure(ZeroDivision)
  {
    var q := BuiltinPresets()["police"]["tone_duration" := Num(0.0)];
    assert forall i :: 0 <= i < |RequiredFields| ==> RequiredFields[i] in q;
    assert forall i :: 0 <= i < |NumericFields| ==> NumericFields[i] in q;
    assert WellFormed(q);
    ValidateAcceptsWellFormed(q);
  }

  /** The default Siren (police, ten seconds, medium traffic) plays ten tone pairs. */
  lemma DefaultSirenCycles()
    ensures Cycles(10.0, Number(BuiltinPresets()["police"], "tone_duration"),
                   TrafficPattern("medium").dutyCycle) == Success(10)
  {
    BuiltinsGood();
    assert BuiltinPresets()["police"]["tone_duration"] == Num(0.4);
    assert 10.0 / (2.0 * 0.4) * 0.8 == 10.0;
  }

  // ---------------------------------------------------------------- the object

  /** The dictionary get_info returns. */
  datatype Info = Info(
    frequencies: (real, real), toneDuration: real, nightMode: bool,
    trafficDensity: string, distance: real, maxDbAtSource: real, estimatedDb: real)

  class Siren {
    var p: Preset
    var freq1: real
    var freq2: real
    var toneDuration: real
    var attack: real
    var decay: real
    var totalDuration: real
    var sampleRate: int
    var nightMode: bool
    var trafficDensity: string
    var distance: real
    var dutyCycle: real
    var burstSize: int
    /** Failure when __init__ raises before the cycle count exists. */
    var cycles: Result<int, Fault>
    /** The generated samples, or the exception generating them raised. */
    var samples: Result<seq<real>, Fault>

    /** The arguments __init__ passes to generate_siren_signal. */
    function Params(): (g: Generators.SignalParams)
      reads this
      requires cycles.Success?
      ensures g.cycles == cycles.value && g.burstSize == burstSize && g.sampleRate == sampleRate
      ensures "volume" in p && p["volume"].Num? ==> g.volume == p["volume"].x
    {
      Generators.SignalParams(freq1, freq2, toneDuration, attack, decay, cycles.value,
        dutyCycle, burstSize, sampleRate, if "volume" in p && p["volume"].Num? then p["volume"].x else 0.0)
    }

    /** What every constructed Siren satisfies. */
    ghost predicate Valid()
      reads this
    {
      && WellFormed(p)
      && sampleRate == SampleRate
      && 0 < burstSize
      && (cycles.Failure? ==> samples == Failure(cycles.error))
      && (samples.Success? ==> cycles.Success?)
      && (samples.Success? ==> Generators.MagnitudesAtMost(samples.value, Number(p, "volume")))
      && (samples.Success? ==> |samples.value| == SampleCount(this))
    }

    /**
     * Siren(name, total_duration, night_mode, traffic_density, distance), with the
     * module-level preset table, the sine function and the random source passed in.
     */
    constructor (registry: Registry, name: string, totalDuration: real, nightMode: bool,
                 trafficDensity: string, distance: real, sin: real -> real, draw: Generators.Draws)
      requires registry.Valid()
      ensures Valid()
      ensures registry.presets == old(registry.presets)
      ensures p == Adjusted(PresetFor(registry.presets, name), nightMode, distance)
      ensures (freq1, freq2) == Freqs(PresetFor(registry.presets, name))
      ensures toneDuration == Number(PresetFor(registry.presets, name), "tone_duration")
      ensures attack == Number(PresetFor(registry.presets, name), "attack")
      ensures decay == Number(PresetFor(registry.presets, name), "decay")
      ensures this.totalDuration == totalDuration && this.nightMode == nightMode
      ensures this.trafficDensity == trafficDensity && this.distance == distance
      ensures Pattern(dutyCycle, burstSize) == TrafficPattern(trafficDensity)
      ensures cycles == Cycles(totalDuration, toneDuration, dutyCycle)
      ensures cycles.Success? ==> samples == Generators.SirenSignal(sin, draw, Params())
    {
      var chosen := PresetFor(registry.presets, name);
      AdjustedKeepsWellFormed(chosen, nightMode, distance);
      var copy := Adjusted(chosen, nightMode, distance);
      var pattern := TrafficPattern(trafficDensity);
      var (f1, f2) := Freqs(chosen);
      var td := Number(chosen, "tone_duration");
      var count := Cycles(totalDuration, td, pattern.dutyCycle);
      p := copy;
      freq1, freq2 := f1, f2;
      toneDuration := td;
      var at, de := Number(chosen, "attack"), Number(chosen, "decay");
      attack, decay := at, de;
      this.totalDuration := totalDuration;
      sampleRate := SampleRate;
      this.nightMode := nightMode;
      this.trafficDensity := trafficDensity;
      this.distance := distance;
      dutyCycle := pattern.dutyCycle;
      burstSize := pattern.burstSize;
      cycles := count;
      match count
      case Failure(e) =>
        samples := Failure(e);
      case Success(c) =>
        var g := Generators.SignalParams(f1, f2, td, at, de, c,
          pattern.dutyCycle, pattern.burstSize, SampleRate, copy["volume"].x);
        var out := Generators.GenerateSirenSignal(sin, draw, g);
        samples := out;
        if out.Success? {
          Schedule.SignalAmplitude(sin, draw, g);
          Schedule.SignalLength(sin, draw, g);
          assert Abs(g.volume) == Number(copy, "volume");
        }
    }

    /** _estimate_db. */
    function EstimatedDb(m: Utils.Numerics): (db: real)
      reads this
      requires Valid()
      ensures Utils.Lawful(m) && nightMode && 0.0 < distance ==> db <= Utils.NightLimitDb
      ensures distance <= 0.0 ==> db == Number(p, "max_db")
    {
      assert Utils.Lawful(m) && nightMode && 0.0 < distance
        ==> Utils.EstimateDb(m, Number(p, "max_db"), distance, nightMode) <= Utils.NightLimitDb by {
        if Utils.Lawful(m) && nightMode && 0.0 < distance {
          Utils.NightCap(m, Number(p, "max_db"), distance);
        }
      }
      Utils.EstimateDb(m, Number(p, "max_db"), distance, nightMode)
    }

    /** get_info. */
    function GetInfo(m: Utils.Numerics): (r: Info)
      reads this
      requires Valid()
      ensures r.frequencies == Freqs(p) && r.maxDbAtSource == Number(p, "max_db")
      ensures r.estimatedDb == EstimatedDb(m)
      ensures Utils.Lawful(m) && nightMode && 0.0 < distance ==> r.estimatedDb <= Utils.NightLimitDb
    {
      Info(Freqs(p), toneDuration, nightMode, trafficDensity, distance, Number(p, "max_db"), EstimatedDb(m))
    }
  }

  /** The samples a Siren's tone pairs and pauses take: two segments per cycle and one gap per pause. */
  function SampleCount(s: Siren): int
    reads s
    requires s.cycles.Success? && s.burstSize > 0
  {
    2 * Schedule.NonNeg(s.cycles.value) * Generators.SegmentLength(s.toneDuration, SampleRate)
      + Schedule.Pauses(s.cycles.value, s.burstSize) * Generators.GapLength(s.Params())
  }

  /** A Siren's samples fill its tone pairs and pauses exactly. */
  lemma SirenLength(s: Siren)
    requires s.Valid() && s.samples.Success?
    ensures s.cycles.Success?
    ensures |s.samples.value|
         == 2 * Schedule.NonNeg(s.cycles.value) * Generators.SegmentLength(s.toneDuration, SampleRate)
          + Schedule.Pauses(s.cycles.value, s.burstSize) * Generators.GapLength(s.Params())
  {
  }

  /**
   * The arguments a Siren hands to generate_siren_signal always let the loop end, and
   * carry a volume in [0, 1].
   */
  lemma SirenParamsEnd(s: Siren)
    requires s.Valid() && s.cycles.Success?
    ensures s.Params().burstSize > 0 && Generators.LoopEnds(s.Params(), s.Params().cycles)
    ensures 0.0 <= s.Params().volume <= 1.0
  {
  }

  /** No sample of a Siren is louder than its adjusted volume. */
  lemma SirenAmplitude(s: Siren)
    requires s.Valid() && s.samples.Success?
    ensures Generators.MagnitudesAtMost(s.samples.value, Number(s.p, "volume"))
  {
  }
}
