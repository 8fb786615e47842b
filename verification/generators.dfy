/**
 * The oscillator (one normalised, enveloped tone segment) and the burst scheduler
 * that strings low/high tone pairs into bursts separated by silent pauses.
 */
module Generators {
  import opened Outcomes
  import opened PyNum
  import Utils

  /** math.pi as a float literal. */
  const Pi: real := 3.141592653589793

  /** Relative amplitude of the second harmonic added to every tone. */
  const HarmonicFactor: real := 0.15

  /** A value of random.uniform(-w, w), as the fraction u of the half-width w. */
  type Unit = u: real | -1.0 <= u <= 1.0

  /** The random source: draw(k) is the k-th value random.uniform returns during one run. */
  type Draws = nat -> Unit

  // ---------------------------------------------------------------- oscillator

  function SeqMin(s: seq<real>): (m: real)
    requires |s| > 0
    ensures forall i :: 0 <= i < |s| ==> m <= s[i]
    ensures m in s
  {
    if |s| == 1 then s[0]
    else
      var rest := SeqMin(s[1..]);
      assert forall i :: 1 <= i < |s| ==> s[i] == s[1..][i - 1];
      Min(s[0], rest)
  }

  function SeqMax(s: seq<real>): (m: real)
    requires |s| > 0
    ensures forall i :: 0 <= i < |s| ==> s[i] <= m
    ensures m in s
  {
    if |s| == 1 then s[0]
    else
      var rest := SeqMax(s[1..]);
      assert forall i :: 1 <= i < |s| ==> s[i] == s[1..][i - 1];
      Max(s[0], rest)
  }

  /** Every sample is zero. */
  predicate Silent(c: seq<real>) {
    forall i :: 0 <= i < |c| ==> c[i] == 0.0
  }

  /** No sample is louder than m. */
  predicate MagnitudesAtMost(c: seq<real>, m: real) {
    forall i :: 0 <= i < |c| ==> Abs(c[i]) <= m
  }

  /** Some sample has magnitude exactly m. */
  predicate MagnitudeReached(c: seq<real>, m: real) {
    exists i :: 0 <= i < |c| && Abs(c[i]) == m
  }

  /** Every sample lies in [-1, 1]. */
  predicate InUnitRange(s: seq<real>) {
    forall i :: 0 <= i < |s| ==> -1.0 <= s[i] <= 1.0
  }

  /** max(abs(min(c)), abs(max(c))): the largest magnitude in c, attained by some sample. */
  function Peak(c: seq<real>): (p: real)
    requires |c| > 0
    ensures MagnitudesAtMost(c, p)
    ensures MagnitudeReached(c, p)
  {
    var lo, hi := SeqMin(c), SeqMax(c);
    ExtremesBoundMagnitude(c, lo, hi);
    Max(Abs(lo), Abs(hi))
  }

  lemma ExtremesBoundMagnitude(c: seq<real>, lo: real, hi: real)
    requires lo in c && hi in c
    requires forall i :: 0 <= i < |c| ==> lo <= c[i] <= hi
    ensures MagnitudesAtMost(c, Max(Abs(lo), Abs(hi)))
    ensures MagnitudeReached(c, Max(Abs(lo), Abs(hi)))
  {
    var i :| 0 <= i < |c| && c[i] == lo;
    var j :| 0 <= j < |c| && c[j] == hi;
    if Abs(lo) >= Abs(hi) {
      assert Abs(c[i]) == Max(Abs(lo), Abs(hi));
    } else {
      assert Abs(c[j]) == Max(Abs(lo), Abs(hi));
    }
  }

  /**
   * The normalisation step: every sample divided by the peak, so that all lie in [-1, 1]
   * and one has magnitude 1; an all-zero buffer is a division by zero.
   */
  function Normalized(c: seq<real>): (r: Result<seq<real>, Fault>)
    requires |c| > 0
    ensures r.Failure? <==> Silent(c)
    ensures r.Failure? ==> r.error == ZeroDivision
    ensures r.Success? ==> |r.value| == |c| && InUnitRange(r.value) && MagnitudeReached(r.value, 1.0)
  {
    var peak := Peak(c);
    if peak == 0.0 then
      assert forall i :: 0 <= i < |c| ==> Abs(c[i]) <= 0.0;
      Failure(ZeroDivision)
    else
      var out := seq(|c|, i requires 0 <= i < |c| => c[i] / peak);
      DividedByPeak(c, peak, out);
      Success(out)
  }

  lemma DividedByPeak(c: seq<real>, peak: real, out: seq<real>)
    requires 0.0 < peak && MagnitudesAtMost(c, peak) && MagnitudeReached(c, peak)
    requires |out| == |c| && forall i :: 0 <= i < |c| ==> out[i] == c[i] / peak
    ensures InUnitRange(out) && MagnitudeReached(out, 1.0)
  {
    forall i | 0 <= i < |c| ensures -1.0 <= out[i] <= 1.0 {
      UnitQuotient(c[i], peak);
    }
    var j :| 0 <= j < |c| && Abs(c[j]) == peak;
    PeakQuotient(c[j], peak);
  }

  lemma PeakQuotient(x: real, peak: real)
    requires 0.0 < peak && Abs(x) == peak
    ensures Abs(x / peak) == 1.0
  {
    if x < 0.0 {
      assert -1.0 * peak == x;
      assert x / peak == -1.0;
    } else {
      assert 1.0 * peak == x;
      assert x / peak == 1.0;
    }
  }

  lemma UnitQuotient(x: real, peak: real)
    requires 0.0 < peak && Abs(x) <= peak
    ensures -1.0 <= x / peak <= 1.0
  {
  }

  /** int(sample_rate * duration): the number of samples in one tone segment. */
  function SegmentLength(duration: real, sampleRate: int): int {
    Trunc(sampleRate as real * duration)
  }

  /** The raw tone: fundamental plus 0.15 times the second harmonic, sample by sample. */
  function Combined(sin: real -> real, freq: real, sampleRate: int, n: nat): (c: seq<real>)
    requires n == 0 || sampleRate != 0
    ensures |c| == n
  {
    seq(n, t requires 0 <= t < n =>
      sin(2.0 * Pi * freq * t as real / sampleRate as real)
        + HarmonicFactor * sin(4.0 * Pi * freq * t as real / sampleRate as real))
  }

  /**
   * generate_sine_wave: int(sample_rate * duration) samples, normalised, then enveloped.
   * min() of an empty segment raises, an all-zero segment divides by zero, and an
   * attack window longer than the segment makes numpy raise.
   */
  function SineWave(sin: real -> real, freq: real, duration: real, sampleRate: int, attack: real, decay: real): (r: Result<seq<real>, Fault>)
    ensures r == Failure(EmptySequence) <==> SegmentLength(duration, sampleRate) <= 0
    ensures r.Success? ==> 0 < |r.value| == SegmentLength(duration, sampleRate)
    ensures r.Success? ==> InUnitRange(r.value)
  {
    var n := SegmentLength(duration, sampleRate);
    if n <= 0 then Failure(EmptySequence)
    else
      assert sampleRate != 0;
      match Normalized(Combined(sin, freq, sampleRate, n))
      case Failure(e) => Failure(e)
      case Success(normalized) =>
        var r := Utils.Enveloped(normalized, attack, decay, sampleRate);
        assert r.Success? ==> forall i :: 0 <= i < n ==> Abs(r.value[i]) <= Abs(normalized[i]) <= 1.0;
        r
  }

  // ------------------------------------------------------------ the schedule

  /** The arguments of generate_siren_signal. */
  datatype SignalParams = SignalParams(
    freq1: real, freq2: real, toneDuration: real, attack: real, decay: real,
    cycles: int, dutyCycle: real, burstSize: int, sampleRate: int, volume: real)

  /** freq + random.uniform(-freq * 0.01, freq * 0.01). */
  function Jittered(freq: real, u: Unit): real {
    freq + u * (freq * 0.01)
  }

  /** A jittered frequency stays within 1% of the nominal one. */
  lemma JitterWithinOnePercent(freq: real, u: Unit)
    ensures Abs(Jittered(freq, u) - freq) <= Abs(freq) / 100.0
  {
    var spread := freq * 0.01;
    Utils.ScaledByUnitShrinks(spread, Abs(u));
    assert Abs(u * spread) == Abs(spread * Abs(u));
  }

  /** tone_duration * 2 * (1 - duty_cycle) / duty_cycle, in seconds. */
  function PauseDuration(p: SignalParams): real
    requires p.dutyCycle != 0.0
  {
    p.toneDuration * 2.0 * (1.0 - p.dutyCycle) / p.dutyCycle
  }

  /** [0] * n: n zero samples, none when n is not positive. */
  function Zeros(n: int): (z: seq<real>)
    ensures |z| == if n < 0 then 0 else n
    ensures forall i :: 0 <= i < |z| ==> z[i] == 0.0
  {
    seq(if n < 0 then 0 else n, _ => 0.0)
  }

  /** Samples in one pause (0 when the duty cycle is 0, where rendering a pause fails instead). */
  function GapLength(p: SignalParams): nat {
    if p.dutyCycle == 0.0 then 0 else |Zeros(Trunc(PauseDuration(p) * p.sampleRate as real))|
  }

  /** The frequency the k-th pair uses for its low or high tone: draws 2k and 2k+1 of the random source. */
  function ToneFrequency(p: SignalParams, draw: Draws, k: nat, high: bool): real {
    if high then Jittered(p.freq2, draw(2 * k + 1)) else Jittered(p.freq1, draw(2 * k))
  }

  /** A tone generator for a given frequency, the other segment parameters being fixed. */
  type Oscillator = real -> Result<seq<real>, Fault>

  /** generate_sine_wave(freq, tone_duration, sample_rate, attack, decay) as a function of freq. */
  function SineOscillator(sin: real -> real, p: SignalParams): Oscillator {
    freq => SineWave(sin, freq, p.toneDuration, p.sampleRate, p.attack, p.decay)
  }

  /** The low or high tone of pair k. */
  function ToneSamples(osc: Oscillator, draw: Draws, p: SignalParams, k: nat, high: bool): Result<seq<real>, Fault> {
    osc(ToneFrequency(p, draw, k, high))
  }

  /** One pause; dividing by a zero duty cycle raises. */
  function PauseSamples(p: SignalParams): Result<seq<real>, Fault> {
    if p.dutyCycle == 0.0 then Failure(ZeroDivision)
    else Success(Zeros(Trunc(PauseDuration(p) * p.sampleRate as real)))
  }

  // The loop of generate_siren_signal, stated as a pair of functions over its state:
  // `remaining` cycles still to emit, `k` pairs already emitted, `done` the samples so far.

  /**
   * Where the loop is defined: it ends for a positive burst size and for no cycles; with
   * a burst size <= 0 and cycles left it ends only when its first pause divides by zero.
   */
  predicate LoopEnds(p: SignalParams, remaining: int) {
    p.burstSize > 0 || remaining <= 0 || p.dutyCycle == 0.0
  }

  /**
   * The state at the top of the while loop. A pass with burst size <= 0 emits no pair
   * and does not lower the count, so its pause is due and raises on the zero duty cycle.
   */
  function SignalFrom(osc: Oscillator, draw: Draws, p: SignalParams, remaining: int, k: nat, done: seq<real>): Result<seq<real>, Fault>
    requires LoopEnds(p, remaining)
    decreases remaining, 0, 0
  {
    if remaining <= 0 then Success(done)
    else if p.burstSize <= 0 then Failure(ZeroDivision)
    else
      var burst := MinInt(remaining, p.burstSize);
      PairsFrom(osc, draw, p, remaining - burst, k, burst, done)
  }

  /**
   * Inside a burst: n pairs still to emit from pair k, `remaining` the cycle count
   * already decremented by the whole burst; after the burst a pause if cycles remain.
   */
  function PairsFrom(osc: Oscillator, draw: Draws, p: SignalParams, remaining: nat, k: nat, n: nat, done: seq<real>): Result<seq<real>, Fault>
    requires p.burstSize > 0 || remaining <= 0
    decreases remaining, 1, n
  {
    if n == 0 then
      if remaining > 0 then
        match PauseSamples(p)
        case Failure(e) => Failure(e)
        case Success(gap) => SignalFrom(osc, draw, p, remaining, k, done + gap)
      else Success(done)
    else
      match ToneSamples(osc, draw, p, k, false)
      case Failure(e) => Failure(e)
      case Success(low) =>
        match ToneSamples(osc, draw, p, k, true)
        case Failure(e) => Failure(e)
        case Success(high) => PairsFrom(osc, draw, p, remaining, k + 1, n - 1, done + low + high)
  }

  /** [s * volume for s in signal]. */
  function Scale(signal: seq<real>, volume: real): (r: seq<real>)
    ensures |r| == |signal|
  {
    seq(|signal|, i requires 0 <= i < |signal| => signal[i] * volume)
  }

  /** What generate_siren_signal returns: the emitted samples scaled by volume, or the exception raised. */
  function SirenSignal(sin: real -> real, draw: Draws, p: SignalParams): Result<seq<real>, Fault>
    requires LoopEnds(p, p.cycles)
  {
    match SignalFrom(SineOscillator(sin, p), draw, p, p.cycles, 0, [])
    case Failure(e) => Failure(e)
    case Success(s) => Success(Scale(s, p.volume))
  }

  /** A burst that leaves no cycles is the end of the signal. */
  lemma LastBurstEnds(osc: Oscillator, draw: Draws, p: SignalParams, k: nat, done: seq<real>)
    ensures PairsFrom(osc, draw, p, 0, k, 0, done) == SignalFrom(osc, draw, p, 0, k, done) == Success(done)
  {
  }

  /** A burst that leaves cycles is followed by a pause of the given length. */
  lemma PauseFollowsBurst(osc: Oscillator, draw: Draws, p: SignalParams, remaining: nat, k: nat, done: seq<real>, gap: seq<real>)
    requires p.burstSize > 0 && remaining > 0 && p.dutyCycle != 0.0
    requires gap == Zeros(Trunc(PauseDuration(p) * p.sampleRate as real))
    ensures PairsFrom(osc, draw, p, remaining, k, 0, done) == SignalFrom(osc, draw, p, remaining, k, done + gap)
  {
    assert PauseSamples(p).value == gap;
  }

  /**
   * generate_siren_signal: the burst loop, then every sample scaled by volume.
   */
  method GenerateSirenSignal(sin: real -> real, draw: Draws, p: SignalParams) returns (r: Result<seq<real>, Fault>)
    requires LoopEnds(p, p.cycles)
    ensures r == SirenSignal(sin, draw, p)
  {
    var signal := EmitBursts(SineOscillator(sin, p), draw, p);
    match signal
    case Failure(e) => r := Failure(e);
    case Success(s) => r := Success(Scale(s, p.volume));
  }

  /**
   * The while loop of generate_siren_signal: while cycles remain, emit a burst of at
   * most burst_size low/high pairs with freshly jittered frequencies, then a silent
   * pause unless no cycles remain.
   */
  method EmitBursts(osc: Oscillator, draw: Draws, p: SignalParams) returns (r: Result<seq<real>, Fault>)
    requires LoopEnds(p, p.cycles)
    ensures r == SignalFrom(osc, draw, p, p.cycles, 0, [])
  {
    var signal: seq<real> := [];
    var drawn: nat := 0;  // calls made so far to random.uniform
    var remaining := p.cycles;
    ghost var pairs: nat := 0;  // low/high pairs emitted so far
    ghost var outcome := SignalFrom(osc, draw, p, p.cycles, 0, []);
    while remaining > 0
      invariant LoopEnds(p, remaining)
      invariant drawn == 2 * pairs
      invariant outcome == SignalFrom(osc, draw, p, remaining, pairs, signal)
      decreases remaining
    {
      var burst := MinInt(remaining, p.burstSize);
      remaining := remaining - burst;
      var count := if burst < 0 then 0 else burst;  // range() of a negative count is empty
      for i := 0 to count
        invariant drawn == 2 * (pairs + i)
        invariant 0 < burst ==> outcome == PairsFrom(osc, draw, p, remaining, pairs + i, burst - i, signal)
      {
        var f1 := Jittered(p.freq1, draw(drawn));
        var f2 := Jittered(p.freq2, draw(drawn + 1));
        var low := osc(f1);
        if low.Failure? {
          return Failure(low.error);
        }
        signal := signal + low.value;
        var high := osc(f2);
        if high.Failure? {
          return Failure(high.error);
        }
        signal := signal + high.value;
        drawn := drawn + 2;
      }
      pairs := pairs + count;
      assert 0 < burst ==> outcome == PairsFrom(osc, draw, p, remaining, pairs, 0, signal);
      if remaining > 0 {
        if p.dutyCycle == 0.0 {
          return Failure(ZeroDivision);
        }
        var pauseDuration := PauseDuration(p);
        var gap := Zeros(Trunc(pauseDuration * p.sampleRate as real));
        PauseFollowsBurst(osc, draw, p, remaining, pairs, signal, gap);
        signal := signal + gap;
      } else {
        LastBurstEnds(osc, draw, p, pairs, signal);
      }
    }
    r := Success(signal);
  }
}
