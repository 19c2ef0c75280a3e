/**
 * The kernel and noise generation of `setupSSAOBuffer`
 * (src/core/RenderSystem.cpp), over reals.  The default-seeded random
 * engine is a fixed stream of draws, each uniform in [0, 1), and
 * `glm::normalize` is a parameter.
 */
module Ssao {
  import opened Glm

  const KernelSize: nat := 64
  const NoiseSize: nat := 16

  /** The i-th value the default-seeded engine yields through the uniform distribution. */
  type Draws = nat -> real

  ghost predicate UnitDraws(draws: Draws)
  {
    forall n: nat :: 0.0 <= draws(n) < 1.0
  }

  /** `ourLerp`: linear interpolation from a to b. */
  function Lerp(a: real, b: real, f: real): real
  {
    a + f * (b - a)
  }

  /** For f in [0, 1] the result lies between the ends, and grows with f. */
  lemma LerpBetween(a: real, b: real, f: real, g: real)
    requires 0.0 <= f <= g <= 1.0 && a <= b
    ensures a <= Lerp(a, b, f) <= Lerp(a, b, g) <= b
  {
    var d := b - a;
    MulMonotone(d, 0.0, f);
    MulMonotone(d, f, g);
    MulMonotone(d, g, 1.0);
    assert d * 0.0 == 0.0 && d * 1.0 == d;
    assert 0.0 <= f * d <= g * d <= d;
  }

  /** The factor sample i is scaled by so that samples cluster near the kernel's centre. */
  function KernelScale(i: nat): real
  {
    var t := i as real / 64.0;
    Lerp(0.1, 1.0, t * t)
  }

  /** Scales lie in [0.1, 1) for the 64 samples. */
  lemma KernelScaleBounds(i: nat)
    requires i < KernelSize
    ensures 0.1 <= KernelScale(i) < 1.0
  {
    var t := i as real / 64.0;
    SquareMonotone(t, t);
    var q := t * t;
    LerpBetween(0.1, 1.0, q, q);
    LerpBelowEnd(0.1, 1.0, q);
  }

  lemma LerpBelowEnd(a: real, b: real, f: real)
    requires 0.0 <= f < 1.0 && a < b
    ensures Lerp(a, b, f) < b
  {
    var d := b - a;
    MulStrict(d, f, 1.0);
    assert d * 1.0 == d;
    assert f * d < d;
  }

  /** Later samples are never scaled less than earlier ones. */
  lemma KernelScaleMonotone(i: nat, j: nat)
    requires i <= j < KernelSize
    ensures KernelScale(i) <= KernelScale(j)
  {
    var s, t := i as real / 64.0, j as real / 64.0;
    SquareMonotone(s, t);
    LerpBetween(0.1, 1.0, s * s, t * t);
  }

  lemma SquareMonotone(s: real, t: real)
    requires 0.0 <= s <= t < 1.0
    ensures 0.0 <= s * s <= t * t < 1.0
  {
    MulMonotone(s, s, t);
    MulMonotone(t, s, t);
    MulMonotone(t, t, 1.0);
    assert t * 1.0 == t;
  }

  lemma MulStrict(c: real, x: real, y: real)
    requires 0.0 < c && x < y
    ensures x * c < y * c
  {
  }

  lemma MulMonotone(c: real, x: real, y: real)
    requires 0.0 <= c && x <= y
    ensures c * x <= c * y && x * c <= y * c
  {
  }

  /**
   * Sample i takes four draws in a row: x and y mapped to [-1, 1), z in
   * [0, 1), then the length it is scaled to before the kernel scale.
   */
  function KernelSample(draws: Draws, normalize: Vec3 -> Vec3, i: nat): Vec3
  {
    var n := 4 * i;
    var direction := normalize(Vec3(draws(n) * 2.0 - 1.0, draws(n + 1) * 2.0 - 1.0, draws(n + 2)));
    Scale(Scale(direction, draws(n + 3)), KernelScale(i))
  }

  /** Noise vector j takes two draws after the kernel's 256, and lies in the xy plane. */
  function NoiseSample(draws: Draws, j: nat): Vec3
  {
    var n := 4 * KernelSize + 2 * j;
    Vec3(draws(n) * 2.0 - 1.0, draws(n + 1) * 2.0 - 1.0, 0.0)
  }

  function Kernel(draws: Draws, normalize: Vec3 -> Vec3): (k: seq<Vec3>)
    ensures |k| == KernelSize
  {
    seq(KernelSize, i requires 0 <= i < KernelSize => KernelSample(draws, normalize, i))
  }

  function Noise(draws: Draws): (k: seq<Vec3>)
    ensures |k| == NoiseSize
  {
    seq(NoiseSize, j requires 0 <= j < NoiseSize => NoiseSample(draws, j))
  }

  /** Every noise vector has z = 0 and x, y in [-1, 1). */
  lemma NoiseInTangentPlane(draws: Draws)
    requires UnitDraws(draws)
    ensures forall j :: 0 <= j < NoiseSize ==>
      && Noise(draws)[j].z == 0.0
      && -1.0 <= Noise(draws)[j].x < 1.0
      && -1.0 <= Noise(draws)[j].y < 1.0
  {
    forall j | 0 <= j < NoiseSize
      ensures -1.0 <= Noise(draws)[j].x < 1.0 && -1.0 <= Noise(draws)[j].y < 1.0
    {
      var n := 4 * KernelSize + 2 * j;
      assert 0.0 <= draws(n) < 1.0 && 0.0 <= draws(n + 1) < 1.0;
    }
  }
}
