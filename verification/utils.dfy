/**
 * The attack/decay envelope and the dB estimate at a listener.
 */
module Utils {
  import opened Outcomes
  import opened PyNum

  /** Element i of numpy.linspace(start, stop, num): evenly spaced, both ends included. */
  function Linspace(start: real, stop: real, num: nat, i: nat): real
    requires i < num
  {
    if num == 1 then start else start + (i as real) * (stop - start) / ((num - 1) as real)
  }

  /** The rising ramp linspace(0, 1, n): 0 first, 1 last (a single point is 0), never outside [0, 1]. */
  lemma RisingRamp(n: nat, i: nat)
    requires i < n
    ensures 0.0 <= Linspace(0.0, 1.0, n, i) <= 1.0
    ensures i == 0 ==> Linspace(0.0, 1.0, n, i) == 0.0
    ensures 1 < n && i == n - 1 ==> Linspace(0.0, 1.0, n, i) == 1.0
    ensures 1 < n ==> Linspace(0.0, 1.0, n, i) == (i as real) / ((n - 1) as real)
  {
    if 1 < n {
      FractionInUnitRange(n, i);
    }
  }

  lemma FractionInUnitRange(n: nat, i: nat)
    requires i < n && 1 < n
    ensures 0.0 <= (i as real) / ((n - 1) as real) <= 1.0
    ensures (i as real) * (1.0 - 0.0) / ((n - 1) as real) == (i as real) / ((n - 1) as real)
    ensures (i as real) * (0.0 - 1.0) / ((n - 1) as real) == -((i as real) / ((n - 1) as real))
  {
  }

  /** The falling ramp linspace(1, 0, n): 1 first, 0 last (a single point is 1), 1 - i/(n-1) at i, never outside [0, 1]. */
  lemma FallingRamp(n: nat, i: nat)
    requires i < n
    ensures 0.0 <= Linspace(1.0, 0.0, n, i) <= 1.0
    ensures i == 0 ==> Linspace(1.0, 0.0, n, i) == 1.0
    ensures 1 < n && i == n - 1 ==> Linspace(1.0, 0.0, n, i) == 0.0
    ensures 1 < n ==> Linspace(1.0, 0.0, n, i) == 1.0 - (i as real) / ((n - 1) as real)
  {
    if 1 < n {
      FractionInUnitRange(n, i);
    }
  }

  /** Python's int(seconds * sample_rate): a window length in samples. */
  function Window(seconds: real, sampleRate: int): int {
    Trunc(seconds * sampleRate as real)
  }

  /** True when the decay ramp is written: a positive window that is shorter than the buffer. */
  predicate DecayApplies(n: nat, d: int) {
    0 < d < n
  }

  /**
   * The envelope value at index i of an n-sample buffer, with attack window a and decay
   * window d in samples: the attack ramp at the head, overwritten by the decay ramp
   * on the last d indices when that ramp is written, 1 elsewhere.
   */
  function Multiplier(n: nat, a: int, d: int, i: nat): real
    requires i < n
  {
    if DecayApplies(n, d) && n - d <= i then Linspace(1.0, 0.0, d, i - (n - d))
    else if 0 < a && i < a then Linspace(0.0, 1.0, a, i)
    else 1.0
  }

  /** Every envelope value lies in [0, 1]. */
  lemma MultiplierInUnitRange(n: nat, a: int, d: int, i: nat)
    requires i < n
    ensures 0.0 <= Multiplier(n, a, d, i) <= 1.0
  {
    if DecayApplies(n, d) && n - d <= i {
      FallingRamp(d, i - (n - d));
    } else if 0 < a && i < a {
      RisingRamp(a, i);
    }
  }

  /**
   * Whether numpy accepts env[:a] = linspace(0, 1, a) on an n-element buffer: the slice
   * has min(a, n) elements, and a value of a elements broadcasts onto it only when the
   * lengths agree or the value has a single element.
   */
  predicate AttackBroadcasts(n: nat, a: int) {
    a <= n || a == 1
  }

  /**
   * envelope(samples, attack, decay, sample_rate) as a value: the sample-wise product
   * with the envelope, or the ValueError numpy raises when the attack ramp does not
   * broadcast onto the head of the buffer.
   */
  function Enveloped(samples: seq<real>, attack: real, decay: real, sampleRate: int): (r: Result<seq<real>, Fault>)
    ensures r.Failure? <==> Window(attack, sampleRate) > |samples| && Window(attack, sampleRate) != 1
    ensures r.Failure? ==> r.error == ShapeMismatch
    ensures r.Success? ==> |r.value| == |samples|
    ensures r.Success? ==> forall i :: 0 <= i < |samples| ==> Abs(r.value[i]) <= Abs(samples[i])
  {
    var n, a, d := |samples|, Window(attack, sampleRate), Window(decay, sampleRate);
    if !AttackBroadcasts(n, a) then Failure(ShapeMismatch)
    else
      var out := seq(n, i requires 0 <= i < n => samples[i] * Multiplier(n, a, d, i));
      assert forall i :: 0 <= i < n ==> Abs(out[i]) <= Abs(samples[i]) by {
        forall i | 0 <= i < n ensures Abs(out[i]) <= Abs(samples[i]) {
          MultiplierInUnitRange(n, a, d, i);
          ScaledByUnitShrinks(samples[i], Multiplier(n, a, d, i));
        }
      }
      Success(out)
  }

  lemma ScaledByUnitShrinks(x: real, m: real)
    requires 0.0 <= m <= 1.0
    ensures Abs(x * m) <= Abs(x)
  {
    if x >= 0.0 {
      assert x * m <= x * 1.0;
    } else {
      assert x * m >= x * 1.0;
    }
  }

  /** With no attack window and no decay window the envelope leaves the samples as they are. */
  lemma NoWindowsIsIdentity(samples: seq<real>, attack: real, decay: real, sampleRate: int)
    requires Window(attack, sampleRate) <= 0 && Window(decay, sampleRate) <= 0
    ensures Enveloped(samples, attack, decay, sampleRate) == Success(samples)
  {
    var out := Enveloped(samples, attack, decay, sampleRate).value;
    assert forall i :: 0 <= i < |samples| ==> out[i] == samples[i];
    assert out == samples;
  }

  /** The first output sample is silenced whenever there is an attack window. */
  lemma AttackStartsSilent(samples: seq<real>, attack: real, decay: real, sampleRate: int)
    requires 0 < Window(attack, sampleRate) <= |samples|
    ensures Enveloped(samples, attack, decay, sampleRate).Success?
    ensures Enveloped(samples, attack, decay, sampleRate).value[0] == 0.0
  {
    RisingRamp(Window(attack, sampleRate), 0);
  }

  /**
   * Inside the attack window and before any decay ramp, sample i is scaled by i/(a-1)
   * (by 0 for a 1-sample window).
   */
  lemma AttackRamp(samples: seq<real>, attack: real, decay: real, sampleRate: int, i: nat)
    requires var a, d := Window(attack, sampleRate), Window(decay, sampleRate);
      && a <= |samples| && i < a
      && !(DecayApplies(|samples|, d) && |samples| - d <= i)
    ensures var a := Window(attack, sampleRate);
      Enveloped(samples, attack, decay, sampleRate).value[i]
        == samples[i] * (if a == 1 then 0.0 else (i as real) / ((a - 1) as real))
  {
    RisingRamp(Window(attack, sampleRate), i);
  }

  /**
   * When the decay window fits in the buffer, the last d samples are scaled by a ramp
   * from 1 down to 0 that replaces any attack value there: the last sample is silenced,
   * except for a 1-sample window, which keeps it.
   */
  lemma DecayRamp(samples: seq<real>, attack: real, decay: real, sampleRate: int)
    requires var n, a, d := |samples|, Window(attack, sampleRate), Window(decay, sampleRate);
      a <= n && DecayApplies(n, d)
    ensures var n, d := |samples|, Window(decay, sampleRate);
      var out := Enveloped(samples, attack, decay, sampleRate).value;
      && out[n - d] == samples[n - d]
      && (d == 1 ==> out[n - 1] == samples[n - 1])
      && (d > 1 ==> out[n - 1] == 0.0)
  {
    var n, d := |samples|, Window(decay, sampleRate);
    FallingRamp(d, 0);
    FallingRamp(d, d - 1);
  }

  /**
   * Offset j of a decay window of more than one sample is scaled by 1 - j/(d-1),
   * whatever the attack window wrote there.
   */
  lemma DecayRampAt(samples: seq<real>, attack: real, decay: real, sampleRate: int, j: nat)
    requires var n, a, d := |samples|, Window(attack, sampleRate), Window(decay, sampleRate);
      && a <= n && DecayApplies(n, d) && 1 < d && j < d
    ensures var n, d := |samples|, Window(decay, sampleRate);
      Enveloped(samples, attack, decay, sampleRate).value[n - d + j]
        == samples[n - d + j] * (1.0 - (j as real) / ((d - 1) as real))
  {
    FallingRamp(Window(decay, sampleRate), j);
  }

  /** Indices outside both windows keep their sample; a decay window as long as the buffer is not applied. */
  lemma OutsideWindowsUnchanged(samples: seq<real>, attack: real, decay: real, sampleRate: int, i: nat)
    requires var n, a, d := |samples|, Window(attack, sampleRate), Window(decay, sampleRate);
      && a <= n && i < n && !(0 < a && i < a)
      && !(DecayApplies(n, d) && n - d <= i)
    ensures Enveloped(samples, attack, decay, sampleRate).value[i] == samples[i]
  {
  }

  /** A 1-sample attack window on an empty buffer broadcasts onto the empty slice: the result is empty. */
  lemma EmptyBufferOneSampleAttack(attack: real, decay: real, sampleRate: int)
    requires Window(attack, sampleRate) == 1
    ensures Enveloped([], attack, decay, sampleRate) == Success([])
  {
  }

  lemma EnvelopedFromMultipliers(samples: seq<real>, attack: real, decay: real, sampleRate: int, e: seq<real>)
    requires var n, a, d := |samples|, Window(attack, sampleRate), Window(decay, sampleRate);
      && AttackBroadcasts(n, a) && |e| == n
      && forall k :: 0 <= k < n ==> e[k] == Multiplier(n, a, d, k)
    ensures Enveloped(samples, attack, decay, sampleRate)
      == Success(seq(|samples|, i requires 0 <= i < |samples| => samples[i] * e[i]))
  {
    var lhs := Enveloped(samples, attack, decay, sampleRate).value;
    var rhs := seq(|samples|, i requires 0 <= i < |samples| => samples[i] * e[i]);
    assert forall i :: 0 <= i < |samples| ==> lhs[i] == rhs[i];
    assert lhs == rhs;
  }

  /** The numpy slice assignment env[from:from+count] = linspace(start, stop, count). */
  method WriteRamp(env: array<real>, from: nat, count: nat, start: real, stop: real)
    requires from + count <= env.Length
    modifies env
    ensures forall k :: 0 <= k < from ==> env[k] == old(env[k])
    ensures forall k :: from <= k < from + count ==> env[k] == Linspace(start, stop, count, k - from)
    ensures forall k :: from + count <= k < env.Length ==> env[k] == old(env[k])
  {
    var j := 0;
    while j < count
      invariant 0 <= j <= count
      invariant forall k :: 0 <= k < from ==> env[k] == old(env[k])
      invariant forall k :: from <= k < from + j ==> env[k] == Linspace(start, stop, count, k - from)
      invariant forall k :: from + j <= k < env.Length ==> env[k] == old(env[k])
    {
      env[from + j] := Linspace(start, stop, count, j);
      j := j + 1;
    }
  }

  /**
   * envelope: fills an array of ones, writes the attack ramp over its head, then the
   * decay ramp over its tail when the tail fits, and multiplies the samples by it.
   */
  method Envelope(samples: seq<real>, attack: real, decay: real, sampleRate: int) returns (r: Result<seq<real>, Fault>)
    ensures r == Enveloped(samples, attack, decay, sampleRate)
  {
    var a := Trunc(attack * sampleRate as real);
    var d := Trunc(decay * sampleRate as real);
    var n := |samples|;
    assert a == Window(attack, sampleRate) && d == Window(decay, sampleRate);
    var env := new real[n](_ => 1.0);
    if a > 0 {
      if a > n {
        if a != 1 {
          return Failure(ShapeMismatch);
        }
      } else {
        WriteRamp(env, 0, a, 0.0, 1.0);
      }
    }
    assert forall k :: 0 <= k < n ==> env[k] == Multiplier(n, a, 0, k);
    if d > 0 && n > d {
      WriteRamp(env, n - d, d, 1.0, 0.0);
    }
    assert forall k :: 0 <= k < n ==> env[k] == Multiplier(n, a, d, k);
    var e := env[..];
    r := Success(seq(n, i requires 0 <= i < n => samples[i] * e[i]));
    EnvelopedFromMultipliers(samples, attack, decay, sampleRate, e);
  }

  /**
   * log10 and round(x, 1), which the model does not compute; `Lawful` lists what the
   * lemmas below rely on.
   */
  datatype Numerics = Numerics(log10: real -> real, round1: real -> real)

  ghost predicate Lawful(m: Numerics) {
    && m.log10(1.0) == 0.0
    && m.log10(10.0) == 1.0
    && (forall x, y :: 0.0 < x <= y ==> m.log10(x) <= m.log10(y))
    && (forall x, y :: x <= y ==> m.round1(x) <= m.round1(y))
    && (forall x: real :: x.Floor as real == x ==> m.round1(x) == x)
  }

  /** The level night mode caps the estimate at. */
  const NightLimitDb: real := 90.0

  /**
   * estimate_db: max_db unchanged at or behind the source; otherwise
   * max_db - 20*log10(max(1, distance)), capped at 90 in night mode, rounded to one decimal.
   */
  function EstimateDb(m: Numerics, maxDb: real, distance: real, nightMode: bool): real {
    if distance <= 0.0 then maxDb
    else
      var reduction := 20.0 * m.log10(Max(1.0, distance));
      var estimated := maxDb - reduction;
      var limited := if nightMode then Min(estimated, NightLimitDb) else estimated;
      m.round1(limited)
  }

  /** At distance <= 0 the source level comes back as it is: neither rounded nor capped by night mode. */
  lemma EstimateAtSource(m: Numerics, maxDb: real, distance: real, nightMode: bool)
    requires distance <= 0.0
    ensures EstimateDb(m, maxDb, distance, nightMode) == maxDb
  {
  }

  /**
   * Within one metre there is no reduction: the estimate is the rounded source level,
   * capped at 90 dB first in night mode.
   */
  lemma EstimateWithinOneMetre(m: Numerics, maxDb: real, distance: real, nightMode: bool)
    requires Lawful(m)
    requires 0.0 < distance <= 1.0
    ensures EstimateDb(m, maxDb, distance, nightMode)
      == m.round1(if nightMode then Min(maxDb, NightLimitDb) else maxDb)
  {
  }

  /** In night mode, at any positive distance, the estimate never exceeds 90 dB. */
  lemma NightCap(m: Numerics, maxDb: real, distance: real)
    requires Lawful(m)
    requires 0.0 < distance
    ensures EstimateDb(m, maxDb, distance, true) <= NightLimitDb
  {
    var limited := Min(maxDb - 20.0 * m.log10(Max(1.0, distance)), NightLimitDb);
    assert m.round1(limited) <= m.round1(NightLimitDb);
    assert NightLimitDb.Floor as real == NightLimitDb;
  }

  /** For a fixed source level and mode, the estimate does not grow with distance (distance > 0). */
  lemma EstimateNonIncreasing(m: Numerics, maxDb: real, nightMode: bool, near: real, far: real)
    requires Lawful(m)
    requires 0.0 < near <= far
    ensures EstimateDb(m, maxDb, far, nightMode) <= EstimateDb(m, maxDb, near, nightMode)
  {
    var dn, df := Max(1.0, near), Max(1.0, far);
    assert m.log10(dn) <= m.log10(df);
    var en, ef := maxDb - 20.0 * m.log10(dn), maxDb - 20.0 * m.log10(df);
    var ln := if nightMode then Min(en, NightLimitDb) else en;
    var lf := if nightMode then Min(ef, NightLimitDb) else ef;
    assert lf <= ln;
    assert m.round1(lf) <= m.round1(ln);
  }

  /** A 110 dB source heard at 10 m: 90 dB by day, 90 dB at night, and 90 dB at night at 1 m. */
  lemma EstimateExamples(m: Numerics)
    requires Lawful(m)
    ensures EstimateDb(m, 110.0, 10.0, false) == 90.0
    ensures EstimateDb(m, 110.0, 10.0, true) == 90.0
    ensures EstimateDb(m, 110.0, 1.0, true) == 90.0
  {
    assert (90.0).Floor as real == 90.0;
  }
}
