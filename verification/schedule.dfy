/**
 * The order in which generate_siren_signal emits tones and pauses, written as a list
 * of pieces, and what that order implies for the signal: which pair sounds where,
 * how many pauses separate the bursts, how long the signal is and how loud it gets.
 */
module Schedule {
  import opened Outcomes
  import opened PyNum
  import opened Generators

  /** One piece of the output: the low or high tone of pair k, or a pause. */
  datatype Piece = Tone(pair: nat, high: bool) | Pause

  /** A cycle count as the number of loop iterations it yields: none when not positive. */
  function NonNeg(c: int): nat {
    if c < 0 then 0 else c
  }

  /** The tones of pairs k .. k+n-1, each pair low tone first. */
  function BurstPieces(k: nat, n: nat): (ps: seq<Piece>)
    ensures |ps| == 2 * n
    decreases n
  {
    if n == 0 then [] else [Tone(k, false), Tone(k, true)] + BurstPieces(k + 1, n - 1)
  }

  /** What follows a burst: a pause if cycles remain, then the rest of the plan. */
  function After(remaining: int, burstSize: int, k: nat): seq<Piece>
    requires burstSize > 0 || remaining <= 0
    decreases remaining, 1
  {
    (if remaining > 0 then [Pause] else []) + PlanFrom(remaining, burstSize, k)
  }

  /**
   * The pieces emitted from the top of the loop with `remaining` cycles left and k
   * pairs done: a burst of min(remaining, burst_size) pairs, then what follows it.
   */
  function PlanFrom(remaining: int, burstSize: int, k: nat): seq<Piece>
    requires burstSize > 0 || remaining <= 0
    decreases remaining, 0
  {
    if remaining <= 0 then []
    else
      var burst := MinInt(remaining, burstSize);
      BurstPieces(k, burst) + After(remaining - burst, burstSize, k + burst)
  }

  function Plan(cycles: int, burstSize: int): seq<Piece>
    requires burstSize > 0 || cycles <= 0
  {
    PlanFrom(cycles, burstSize, 0)
  }

  function PieceSamples(osc: Oscillator, draw: Draws, p: SignalParams, piece: Piece): Result<seq<real>, Fault> {
    match piece
    case Tone(k, high) => ToneSamples(osc, draw, p, k, high)
    case Pause => PauseSamples(p)
  }

  /** `done` followed by the samples of `pieces` in order; the first failing piece's exception otherwise. */
  function RenderFrom(osc: Oscillator, draw: Draws, p: SignalParams, pieces: seq<Piece>, done: seq<real>): Result<seq<real>, Fault>
    decreases |pieces|
  {
    if pieces == [] then Success(done)
    else match PieceSamples(osc, draw, p, pieces[0])
      case Failure(e) => Failure(e)
      case Success(s) => RenderFrom(osc, draw, p, pieces[1..], done + s)
  }

  /** The plan of generate_siren_signal rendered with generate_sine_wave, before scaling. */
  function Rendered(sin: real -> real, draw: Draws, p: SignalParams): Result<seq<real>, Fault>
    requires p.burstSize > 0 || p.cycles <= 0
  {
    RenderFrom(SineOscillator(sin, p), draw, p, Plan(p.cycles, p.burstSize), [])
  }

  // ------------------------------------------------------- the plan is the loop

  lemma {:induction false} PlanMatchesLoop(osc: Oscillator, draw: Draws, p: SignalParams, remaining: int, k: nat, done: seq<real>)
    requires p.burstSize > 0 || remaining <= 0
    ensures RenderFrom(osc, draw, p, PlanFrom(remaining, p.burstSize, k), done) == SignalFrom(osc, draw, p, remaining, k, done)
    decreases remaining, 0, 0
  {
    if remaining > 0 {
      var burst := MinInt(remaining, p.burstSize);
      BurstMatchesLoop(osc, draw, p, remaining - burst, k, burst, done);
    }
  }

  lemma {:induction false} BurstMatchesLoop(osc: Oscillator, draw: Draws, p: SignalParams, remaining: nat, k: nat, n: nat, done: seq<real>)
    requires p.burstSize > 0 || remaining <= 0
    ensures RenderFrom(osc, draw, p, BurstPieces(k, n) + After(remaining, p.burstSize, k + n), done)
         == PairsFrom(osc, draw, p, remaining, k, n, done)
    decreases remaining, 1, n
  {
    var rest := After(remaining, p.burstSize, k + n);
    var ps := BurstPieces(k, n) + rest;
    if n == 0 {
      assert ps == rest;
      if remaining > 0 {
        assert ps[0] == Pause && ps[1..] == PlanFrom(remaining, p.burstSize, k);
        if PauseSamples(p).Success? {
          PlanMatchesLoop(osc, draw, p, remaining, k, done + PauseSamples(p).value);
        }
      }
    } else {
      var tail := BurstPieces(k + 1, n - 1) + After(remaining, p.burstSize, (k + 1) + (n - 1));
      assert ps[0] == Tone(k, false) && ps[1..][0] == Tone(k, true) && ps[1..][1..] == tail;
      var low := ToneSamples(osc, draw, p, k, false);
      var high := ToneSamples(osc, draw, p, k, true);
      if low.Success? && high.Success? {
        BurstMatchesLoop(osc, draw, p, remaining, k + 1, n - 1, done + low.value + high.value);
      }
    }
  }

  /** generate_siren_signal renders its plan, piece by piece, and scales the result by volume. */
  lemma SirenSignalFollowsPlan(sin: real -> real, draw: Draws, p: SignalParams)
    requires p.burstSize > 0 || p.cycles <= 0
    ensures SirenSignal(sin, draw, p).Success? <==> Rendered(sin, draw, p).Success?
    ensures SirenSignal(sin, draw, p).Failure? ==> SirenSignal(sin, draw, p).error == Rendered(sin, draw, p).error
    ensures SirenSignal(sin, draw, p).Success? ==>
      SirenSignal(sin, draw, p).value == Scale(Rendered(sin, draw, p).value, p.volume)
  {
    PlanMatchesLoop(SineOscillator(sin, p), draw, p, p.cycles, 0, []);
  }

  // ------------------------------------------------------- the shape of the plan

  /** The tones of a piece list, in order. */
  function Tones(ps: seq<Piece>): (ts: seq<Piece>)
    ensures |ts| <= |ps|
  {
    if ps == [] then [] else (if ps[0].Tone? then [ps[0]] else []) + Tones(ps[1..])
  }

  function CountPauses(ps: seq<Piece>): nat {
    if ps == [] then 0 else (if ps[0].Pause? then 1 else 0) + CountPauses(ps[1..])
  }

  /** The pauses between bursts: one fewer than the ceil(cycles / burst_size) bursts. */
  function Pauses(cycles: int, burstSize: int): nat
    requires burstSize > 0
  {
    if cycles <= 0 then 0 else (cycles - 1) / burstSize
  }

  lemma MultipleOfPositiveBelow(w: int, d: int)
    requires 0 < w && -w < w * d < w
    ensures d == 0
  {
  }

  /** Euclidean division is unique: x = w·q + r with 0 <= r < w fixes q and r. */
  lemma DivModUnique(x: int, w: int, q: int, r: int)
    requires 0 < w && 0 <= r < w && x == w * q + r
    ensures x / w == q && x % w == r
  {
    var q', r' := x / w, x % w;
    assert w * q' + r' == w * q + r;
    assert w * (q' - q) == r - r';
    MultipleOfPositiveBelow(w, q' - q);
  }

  /** The number of pauses rises by one with every further full burst. */
  lemma PausesStep(c: int, b: int)
    requires b > 0 && c > 0
    ensures c <= b ==> Pauses(c, b) == 0
    ensures c > b ==> Pauses(c, b) == 1 + Pauses(c - b, b)
  {
    if c <= b {
      DivModUnique(c - 1, b, 0, c - 1);
    } else {
      var q, r := (c - b - 1) / b, (c - b - 1) % b;
      assert c - 1 == b * (q + 1) + r;
      DivModUnique(c - 1, b, q + 1, r);
    }
  }

  /** ceil(cycles / burst_size) bursts: the pauses number the full bursts before the last one. */
  lemma PausesBetweenBursts(c: int, b: int)
    requires b > 0 && c > 0
    ensures b * Pauses(c, b) < c <= b * (Pauses(c, b) + 1)
  {
    var q, r := (c - 1) / b, (c - 1) % b;
    assert c - 1 == b * q + r;
    assert b * (q + 1) == b * q + b;
  }

  lemma {:induction false} FilterAppend(a: seq<Piece>, b: seq<Piece>)
    ensures Tones(a + b) == Tones(a) + Tones(b)
    ensures CountPauses(a + b) == CountPauses(a) + CountPauses(b)
  {
    if a == [] {
      assert a + b == b;
    } else {
      assert (a + b)[0] == a[0] && (a + b)[1..] == a[1..] + b;
      FilterAppend(a[1..], b);
    }
  }

  lemma {:induction false} BurstConcat(k: nat, n: nat, m: nat)
    ensures BurstPieces(k, n) + BurstPieces(k + n, m) == BurstPieces(k, n + m)
    decreases n
  {
    if n > 0 {
      BurstConcat(k + 1, n - 1, m);
      var pair := [Tone(k, false), Tone(k, true)];
      assert BurstPieces(k, n) + BurstPieces(k + n, m)
          == pair + (BurstPieces(k + 1, n - 1) + BurstPieces(k + n, m));
    }
  }

  lemma {:induction false} BurstIsAllTones(k: nat, n: nat)
    ensures Tones(BurstPieces(k, n)) == BurstPieces(k, n)
    ensures CountPauses(BurstPieces(k, n)) == 0
    decreases n
  {
    if n > 0 {
      var pair := [Tone(k, false), Tone(k, true)];
      FilterAppend(pair, BurstPieces(k + 1, n - 1));
      BurstIsAllTones(k + 1, n - 1);
      assert Tones(pair) == pair by {
        assert pair[1..] == [Tone(k, true)];
        assert pair[1..][1..] == [];
      }
      assert CountPauses(pair) == 0 by {
        assert pair[1..] == [Tone(k, true)];
        assert pair[1..][1..] == [];
      }
    }
  }

  /**
   * The plan holds every pair exactly once, in order and low tone first; its pauses
   * are the ones between bursts, and nothing else.
   */
  lemma {:induction false} PlanShape(remaining: int, b: int, k: nat)
    requires b > 0
    ensures Tones(PlanFrom(remaining, b, k)) == BurstPieces(k, NonNeg(remaining))
    ensures CountPauses(PlanFrom(remaining, b, k)) == Pauses(remaining, b)
    ensures |PlanFrom(remaining, b, k)| == 2 * NonNeg(remaining) + Pauses(remaining, b)
    decreases remaining
  {
    if remaining > 0 {
      var burst := MinInt(remaining, b);
      var gap: seq<Piece> := if remaining - burst > 0 then [Pause] else [];
      var rest := PlanFrom(remaining - burst, b, k + burst);
      PlanShape(remaining - burst, b, k + burst);
      FilterAppend(BurstPieces(k, burst), gap + rest);
      FilterAppend(gap, rest);
      BurstIsAllTones(k, burst);
      BurstConcat(k, burst, remaining - burst);
      PausesStep(remaining, b);
      if remaining - burst > 0 {
        assert gap[1..] == [];
        assert Tones(gap) == [] && CountPauses(gap) == 1;
      }
    }
  }

  /** The piece at offset r of the m-th burst: pair k + m·b + r/2 for r < 2b, the pause at r = 2b. */
  function Slot(b: int, k: nat, m: nat, r: nat): Piece
    requires b > 0
  {
    if r == 2 * b then Pause else Tone(k + m * b + r / 2, r % 2 == 1)
  }

  /** Where the j-th piece of a plan sits: bursts of 2b tones, each followed by a pause. */
  function PieceAt(b: int, k: nat, j: nat): Piece
    requires b > 0
  {
    Slot(b, k, j / (2 * b + 1), j % (2 * b + 1))
  }

  lemma SlotShift(b: int, k: nat, m: nat, r: nat)
    requires b > 0
    ensures Slot(b, k + b, m, r) == Slot(b, k, m + 1, r)
  {
    assert (m + 1) * b == m * b + b;
  }

  lemma {:induction false} BurstAt(k: nat, n: nat, j: nat)
    requires j < 2 * n
    ensures BurstPieces(k, n)[j] == Tone(k + j / 2, j % 2 == 1)
    decreases n
  {
    if j >= 2 {
      BurstAt(k + 1, n - 1, j - 2);
    }
  }

  /** Every burst but the last holds burst_size pairs and is followed by one pause. */
  lemma {:induction false} PlanLayout(remaining: int, b: int, k: nat, j: nat)
    requires b > 0 && j < |PlanFrom(remaining, b, k)|
    ensures PlanFrom(remaining, b, k)[j] == PieceAt(b, k, j)
    decreases remaining
  {
    var w := 2 * b + 1;
    var burst := MinInt(remaining, b);
    if j <= 2 * burst {
      FirstBurstLayout(remaining, b, k, j);
    } else {
      LaterBurstIndex(remaining, b, k, j);
      PlanLayout(remaining - b, b, k + b, j - w);
      PieceAtShift(b, k, j);
    }
  }

  /** One burst and its pause further on, the layout repeats with the pairs counted from k + b. */
  lemma PieceAtShift(b: int, k: nat, j: nat)
    requires b > 0 && 2 * b + 1 <= j
    ensures PieceAt(b, k, j) == PieceAt(b, k + b, j - (2 * b + 1))
  {
    var w := 2 * b + 1;
    var m, r := (j - w) / w, (j - w) % w;
    DivModUnique(j, w, m + 1, r);
    SlotShift(b, k, m, r);
  }

  /** Past the first burst and its pause, the plan continues with the plan of the remaining cycles. */
  lemma LaterBurstIndex(remaining: int, b: int, k: nat, j: nat)
    requires b > 0 && 2 * MinInt(remaining, b) < j < |PlanFrom(remaining, b, k)|
    ensures remaining > b
    ensures j - (2 * b + 1) < |PlanFrom(remaining - b, b, k + b)|
    ensures PlanFrom(remaining, b, k)[j] == PlanFrom(remaining - b, b, k + b)[j - (2 * b + 1)]
  {
    var burst := MinInt(remaining, b);
    var rest := After(remaining - burst, b, k + burst);
    assert PlanFrom(remaining, b, k) == BurstPieces(k, burst) + rest;
    assert remaining - burst > 0;
    assert rest[1..] == PlanFrom(remaining - b, b, k + b);
  }

  lemma FirstBurstLayout(remaining: int, b: int, k: nat, j: nat)
    requires b > 0 && j < |PlanFrom(remaining, b, k)| && j <= 2 * MinInt(remaining, b)
    ensures PlanFrom(remaining, b, k)[j] == PieceAt(b, k, j)
  {
    var burst := MinInt(remaining, b);
    var rest := After(remaining - burst, b, k + burst);
    assert PlanFrom(remaining, b, k) == BurstPieces(k, burst) + rest;
    DivModUnique(j, 2 * b + 1, 0, j);
    if j < 2 * burst {
      BurstAt(k, burst, j);
    } else {
      assert rest[0] == Pause;
    }
  }

  /** The plan of the whole signal starts with the first low tone and ends with the last high tone. */
  lemma PlanEdges(cycles: int, b: int)
    requires b > 0 && cycles > 0
    ensures Plan(cycles, b)[0] == Tone(0, false)
    ensures Plan(cycles, b)[|Plan(cycles, b)| - 1] == Tone(cycles - 1, true)
  {
    PlanShape(cycles, b, 0);
    PlanLayout(cycles, b, 0, 0);
    LastPiece(cycles, b, 0);
  }

  lemma {:induction false} LastPiece(remaining: int, b: int, k: nat)
    requires b > 0 && remaining > 0
    ensures |PlanFrom(remaining, b, k)| > 0
    ensures PlanFrom(remaining, b, k)[|PlanFrom(remaining, b, k)| - 1] == Tone(k + remaining - 1, true)
    decreases remaining
  {
    var burst := MinInt(remaining, b);
    var ps := PlanFrom(remaining, b, k);
    if remaining - burst > 0 {
      LastPiece(remaining - burst, b, k + burst);
      var rest := PlanFrom(remaining - burst, b, k + burst);
      assert After(remaining - burst, b, k + burst) == [Pause] + rest;
      assert ps == BurstPieces(k, burst) + ([Pause] + rest);
      assert ps == (BurstPieces(k, burst) + [Pause]) + rest;
    } else {
      assert After(remaining - burst, b, k + burst) == [];
      assert ps == BurstPieces(k, burst) + [];
      BurstAt(k, burst, 2 * burst - 1);
    }
  }

  // ------------------------------------------------------ what the signal is like

  lemma {:induction false} RenderFailsAt(osc: Oscillator, draw: Draws, p: SignalParams, ps: seq<Piece>, done: seq<real>, j: nat)
    requires j < |ps| && PieceSamples(osc, draw, p, ps[j]).Failure?
    ensures RenderFrom(osc, draw, p, ps, done).Failure?
    decreases j
  {
    if j > 0 && PieceSamples(osc, draw, p, ps[0]).Success? {
      RenderFailsAt(osc, draw, p, ps[1..], done + PieceSamples(osc, draw, p, ps[0]).value, j - 1);
    }
  }

  /** When every piece before j renders and piece j raises, the signal fails with piece j's exception. */
  lemma {:induction false} RenderFirstFailure(osc: Oscillator, draw: Draws, p: SignalParams, ps: seq<Piece>, done: seq<real>, j: nat)
    requires j < |ps| && PieceSamples(osc, draw, p, ps[j]).Failure?
    requires forall i :: 0 <= i < j ==> PieceSamples(osc, draw, p, ps[i]).Success?
    ensures RenderFrom(osc, draw, p, ps, done) == Failure(PieceSamples(osc, draw, p, ps[j]).error)
    decreases j
  {
    if j > 0 {
      assert PieceSamples(osc, draw, p, ps[0]).Success?;
      assert forall i :: 0 <= i < j - 1 ==> ps[1..][i] == ps[i + 1];
      RenderFirstFailure(osc, draw, p, ps[1..], done + PieceSamples(osc, draw, p, ps[0]).value, j - 1);
    }
  }

  /** The oscillator never raises: every tone it is asked for is produced. */
  ghost predicate TonesSucceed(osc: Oscillator) {
    forall f :: osc(f).Success?
  }

  /** Every tone the oscillator produces has n samples. */
  ghost predicate TonesHaveLength(osc: Oscillator, n: int) {
    forall f :: osc(f).Success? ==> |osc(f).value| == n
  }

  /** Every tone the oscillator produces lies in [-1, 1]. */
  ghost predicate TonesInUnitRange(osc: Oscillator) {
    forall f :: osc(f).Success? ==> InUnitRange(osc(f).value)
  }

  /** generate_sine_wave yields int(sample_rate · tone_duration) samples, all in [-1, 1]. */
  lemma SineOscillatorShape(sin: real -> real, p: SignalParams)
    ensures TonesHaveLength(SineOscillator(sin, p), SegmentLength(p.toneDuration, p.sampleRate))
    ensures TonesInUnitRange(SineOscillator(sin, p))
  {
    var osc := SineOscillator(sin, p);
    forall f | osc(f).Success?
      ensures |osc(f).value| == SegmentLength(p.toneDuration, p.sampleRate) && InUnitRange(osc(f).value)
    {
      assert osc(f) == SineWave(sin, f, p.toneDuration, p.sampleRate, p.attack, p.decay);
    }
  }

  lemma FirstPieceCounts(ps: seq<Piece>)
    requires ps != []
    ensures |Tones(ps)| == |Tones(ps[1..])| + (if ps[0].Tone? then 1 else 0)
    ensures CountPauses(ps) == CountPauses(ps[1..]) + (if ps[0].Pause? then 1 else 0)
  {
  }

  lemma {:induction false} RenderLength(osc: Oscillator, seg: int, draw: Draws, p: SignalParams, ps: seq<Piece>, done: seq<real>)
    requires TonesHaveLength(osc, seg)
    requires RenderFrom(osc, draw, p, ps, done).Success?
    ensures |RenderFrom(osc, draw, p, ps, done).value| == |done| + |Tones(ps)| * seg + CountPauses(ps) * GapLength(p)
    decreases |ps|
  {
    if ps != [] {
      var s := PieceSamples(osc, draw, p, ps[0]).value;
      assert |s| == if ps[0].Tone? then seg else GapLength(p);
      RenderLength(osc, seg, draw, p, ps[1..], done + s);
      FirstPieceCounts(ps);
      CountsTimesLengths(|Tones(ps[1..])|, CountPauses(ps[1..]), seg, GapLength(p), ps[0].Tone?);
    }
  }

  lemma CountsTimesLengths(t: int, q: int, seg: int, gap: int, tone: bool)
    ensures (t + (if tone then 1 else 0)) * seg + (q + (if tone then 0 else 1)) * gap
         == t * seg + q * gap + (if tone then seg else gap)
  {
    if tone {
      assert (t + 1) * seg == t * seg + seg;
    } else {
      assert (q + 1) * gap == q * gap + gap;
    }
  }

  lemma UnitRangeAppend(a: seq<real>, b: seq<real>)
    requires InUnitRange(a) && InUnitRange(b)
    ensures InUnitRange(a + b)
  {
    assert forall i :: |a| <= i < |a + b| ==> (a + b)[i] == b[i - |a|];
  }

  lemma {:induction false} RenderInUnitRange(osc: Oscillator, draw: Draws, p: SignalParams, ps: seq<Piece>, done: seq<real>)
    requires TonesInUnitRange(osc) && InUnitRange(done)
    requires RenderFrom(osc, draw, p, ps, done).Success?
    ensures InUnitRange(RenderFrom(osc, draw, p, ps, done).value)
    decreases |ps|
  {
    if ps != [] {
      var s := PieceSamples(osc, draw, p, ps[0]).value;
      assert InUnitRange(s);
      UnitRangeAppend(done, s);
      RenderInUnitRange(osc, draw, p, ps[1..], done + s);
    }
  }

  /** remaining_cycles after t passes of the while loop, or after fewer once it is no longer positive. */
  function RemainingAfter(remaining: int, b: int, t: nat): int
    decreases t
  {
    if t == 0 || remaining <= 0 then remaining
    else RemainingAfter(remaining - MinInt(remaining, b), b, t - 1)
  }

  /** With burst_size <= 0 a positive cycle count never goes down, so the loop never ends. */
  lemma {:induction false} NoBurstsNeverEnd(remaining: int, b: int, t: nat)
    requires b <= 0 && remaining > 0
    ensures RemainingAfter(remaining, b, t) >= remaining
    decreases t
  {
    if t > 0 {
      NoBurstsNeverEnd(remaining - MinInt(remaining, b), b, t - 1);
    }
  }

  /**
   * With burst_size <= 0, cycles to play and a zero duty cycle, the first pass emits no
   * pair, leaves the count positive and raises when it computes the pause.
   */
  lemma StalledLoopDividesByZero(sin: real -> real, draw: Draws, p: SignalParams)
    requires p.burstSize <= 0 && p.cycles > 0 && p.dutyCycle == 0.0
    ensures SirenSignal(sin, draw, p) == Failure(ZeroDivision)
  {
  }

  /** With burst_size > 0 every pass removes at least one cycle, so `cycles` passes end the loop. */
  lemma {:induction false} BurstsEnd(remaining: int, b: int, t: nat)
    requires b > 0 && remaining <= t
    ensures RemainingAfter(remaining, b, t) <= 0
    decreases t
  {
    if t > 0 && remaining > 0 {
      BurstsEnd(remaining - MinInt(remaining, b), b, t - 1);
    }
  }

  /** Without cycles the loop never runs: the signal is empty, whatever the burst size. */
  lemma NoCyclesNoSignal(sin: real -> real, draw: Draws, p: SignalParams)
    requires p.cycles <= 0
    ensures SirenSignal(sin, draw, p) == Success([])
  {
  }

  /**
   * The signal holds 2·cycles tone segments of int(sample_rate · tone_duration) samples
   * and one pause between consecutive bursts.
   */
  lemma SignalLength(sin: real -> real, draw: Draws, p: SignalParams)
    requires p.burstSize > 0 && SirenSignal(sin, draw, p).Success?
    ensures |SirenSignal(sin, draw, p).value|
         == 2 * NonNeg(p.cycles) * SegmentLength(p.toneDuration, p.sampleRate)
          + Pauses(p.cycles, p.burstSize) * GapLength(p)
  {
    SirenSignalFollowsPlan(sin, draw, p);
    PlanShape(p.cycles, p.burstSize, 0);
    SineOscillatorShape(sin, p);
    RenderLength(SineOscillator(sin, p), SegmentLength(p.toneDuration, p.sampleRate), draw, p, Plan(p.cycles, p.burstSize), []);
  }

  /** Scaling samples in [-1, 1] by a volume keeps them within the volume's magnitude. */
  lemma ScaleWithinVolume(s: seq<real>, volume: real)
    requires InUnitRange(s)
    ensures MagnitudesAtMost(Scale(s, volume), Abs(volume))
  {
    forall i | 0 <= i < |s| ensures Abs(Scale(s, volume)[i]) <= Abs(volume) {
      ScaledSampleWithinVolume(s[i], volume);
    }
  }

  lemma ScaledSampleWithinVolume(x: real, volume: real)
    requires -1.0 <= x <= 1.0
    ensures Abs(x * volume) <= Abs(volume)
  {
    Utils.ScaledByUnitShrinks(volume, Abs(x));
    assert Abs(x * volume) == Abs(volume * Abs(x));
  }

  /** No sample of the signal is louder than the volume. */
  lemma SignalAmplitude(sin: real -> real, draw: Draws, p: SignalParams)
    requires (p.burstSize > 0 || p.cycles <= 0) && SirenSignal(sin, draw, p).Success?
    ensures MagnitudesAtMost(SirenSignal(sin, draw, p).value, Abs(p.volume))
  {
    SirenSignalFollowsPlan(sin, draw, p);
    SineOscillatorShape(sin, p);
    RenderInUnitRange(SineOscillator(sin, p), draw, p, Plan(p.cycles, p.burstSize), []);
    ScaleWithinVolume(Rendered(sin, draw, p).value, p.volume);
  }

  /** A tone duration too short for one sample makes the very first tone raise. */
  lemma EmptyToneFails(sin: real -> real, draw: Draws, p: SignalParams)
    requires p.burstSize > 0 && p.cycles > 0
    requires SegmentLength(p.toneDuration, p.sampleRate) <= 0
    ensures SirenSignal(sin, draw, p) == Failure(EmptySequence)
  {
    SirenSignalFollowsPlan(sin, draw, p);
    PlanEdges(p.cycles, p.burstSize);
  }

  /**
   * With a zero duty cycle, any signal that needs a pause raises: with division by zero
   * at the first pause, unless a tone of the first burst has raised before it.
   */
  lemma ZeroDutyCycleFails(sin: real -> real, draw: Draws, p: SignalParams)
    requires 0 < p.burstSize < p.cycles && p.dutyCycle == 0.0
    ensures SirenSignal(sin, draw, p).Failure?
    ensures TonesSucceed(SineOscillator(sin, p)) ==> SirenSignal(sin, draw, p) == Failure(ZeroDivision)
  {
    SirenSignalFollowsPlan(sin, draw, p);
    var b, osc, ps := p.burstSize, SineOscillator(sin, p), Plan(p.cycles, p.burstSize);
    PlanShape(p.cycles, b, 0);
    PausesStep(p.cycles, b);
    PlanLayout(p.cycles, b, 0, 2 * b);
    DivModUnique(2 * b, 2 * b + 1, 0, 2 * b);
    RenderFailsAt(osc, draw, p, ps, [], 2 * b);
    if TonesSucceed(osc) {
      forall i | 0 <= i < 2 * b
        ensures PieceSamples(osc, draw, p, ps[i]).Success?
      {
        PlanLayout(p.cycles, b, 0, i);
        DivModUnique(i, 2 * b + 1, 0, i);
        assert ps[i].Tone?;
      }
      RenderFirstFailure(osc, draw, p, ps, [], 2 * b);
    }
  }
}
