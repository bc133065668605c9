/**
 * Clock and counter arithmetic shared by both versions of the animation
 * controller (src/app/state.rs and the earlier src/app.rs).
 *
 * Wall-clock `Instant`s are modelled as milliseconds (`nat`) supplied by the
 * caller; the fixed-width counters of the source are modelled explicitly.
 */
module Timing {

  /** The two visible states of the controller. */
  datatype AnimationState = Idle | Typing

  /** A typing frame lasts 250 ms. */
  const TYPING_ANIMATION_MS: nat := 250
  /** An idle frame lasts 10 s. */
  const IDLE_ANIMATION_MS: nat := 10_000
  /** Number of typing frames in the sprite sheet. */
  const TYPING_FRAME_COUNT: nat := 8
  /** Number of idle frames in the sprite sheet. */
  const IDLE_FRAME_COUNT: nat := 8
  /** Typing continues this long after the last key press. */
  const TYPING_LINGER_MS: nat := 3_000
  /** The scanline offset cycles through this many values. */
  const SCANLINE_PERIOD: nat := 20
  /** The scanline moves once every this many ticks. */
  const SCANLINE_STRIDE: nat := 3
  /** `u64` arithmetic wraps modulo 2^64. */
  const U64_MODULUS: nat := 0x1_0000_0000_0000_0000

  /**
   * `now.duration_since(since)`: the time between two instants, which
   * saturates at zero when `since` is the later one.
   */
  function Elapsed(now: nat, since: nat): (d: nat)
    ensures now >= since ==> since + d == now
    ensures now < since ==> d == 0
  {
    if now >= since then now - since else 0
  }

  /** One step of a cyclic frame counter: `(frame + 1) % count`. */
  function NextFrame(frame: nat, count: nat): (next: nat)
    requires count > 0
    ensures next < count
    ensures frame + 1 < count ==> next == frame + 1
    ensures frame + 1 == count ==> next == 0
  {
    (frame + 1) % count
  }

  /** The frame reached from `frame` after `steps` cyclic steps. */
  function Advance(frame: nat, count: nat, steps: nat): nat
    requires count > 0
  {
    if steps == 0 then frame else NextFrame(Advance(frame, count, steps - 1), count)
  }

  /** `a % count` is the unique `r` below `count` with `a == q * count + r`. */
  lemma ModUnique(a: nat, count: nat, q: nat, r: nat)
    requires count > 0 && r < count && a == q * count + r
    ensures a % count == r && a / count == q
  {
    var q', r' := a / count, a % count;
    assert a == q' * count + r';
    if q' < q {
      assert (q - q') * count >= count by { MulAtLeast(q - q', count); }
      assert false;
    } else if q < q' {
      assert (q' - q) * count >= count by { MulAtLeast(q' - q, count); }
      assert false;
    }
  }

  lemma MulAtLeast(k: nat, count: nat)
    requires k >= 1
    ensures k * count >= count
  {
  }

  /** Stepping a value reduced mod `count` agrees with reducing its successor. */
  lemma ModOfSuccessor(a: nat, count: nat)
    requires count > 0
    ensures (a % count + 1) % count == (a + 1) % count
  {
    var q, r := a / count, a % count;
    assert a == q * count + r;
    if r + 1 < count {
      ModUnique(a + 1, count, q, r + 1);
      ModUnique(r + 1, count, 0, r + 1);
    } else {
      assert a + 1 == (q + 1) * count + 0;
      ModUnique(a + 1, count, q + 1, 0);
      ModUnique(r + 1, count, 1, 0);
    }
  }

  /**
   * A cyclic counter advanced `steps` times lands on `(frame + steps) % count`,
   * so it visits every frame and never leaves `[0, count)`.
   */
  lemma {:induction false} AdvanceIsModular(frame: nat, count: nat, steps: nat)
    requires frame < count
    ensures Advance(frame, count, steps) == (frame + steps) % count
  {
    if steps > 0 {
      AdvanceIsModular(frame, count, steps - 1);
      ModOfSuccessor(frame + steps - 1, count);
    }
  }

  /** After exactly `count` steps a cyclic counter is back where it started. */
  lemma AdvanceFullCycle(frame: nat, count: nat)
    requires frame < count
    ensures Advance(frame, count, count) == frame
  {
    AdvanceIsModular(frame, count, count);
    ModUnique(frame + count, count, 1, frame);
  }

  /** Starting from frame 0, frame `f` is reached after exactly `f` steps. */
  lemma AdvanceFromZeroReaches(count: nat, f: nat)
    requires f < count
    ensures Advance(0, count, f) == f
  {
    AdvanceIsModular(0, count, f);
  }

  /** `u64::wrapping_add(1)`. */
  function WrappingIncrement(n: nat): (m: nat)
    requires n < U64_MODULUS
    ensures m < U64_MODULUS
    ensures n + 1 < U64_MODULUS ==> m == n + 1
    ensures n + 1 == U64_MODULUS ==> m == 0
  {
    (n + 1) % U64_MODULUS
  }

  /**
   * The scanline offset after a tick whose incremented frame counter is
   * `frameCount`: it moves one step (mod 20) on every third tick.
   */
  function NextScanline(frameCount: nat, offset: nat): (next: nat)
    ensures frameCount % SCANLINE_STRIDE == 0 ==> next < SCANLINE_PERIOD
    ensures frameCount % SCANLINE_STRIDE == 0 && offset + 1 < SCANLINE_PERIOD ==> next == offset + 1
    ensures frameCount % SCANLINE_STRIDE == 0 && offset + 1 == SCANLINE_PERIOD ==> next == 0
    ensures frameCount % SCANLINE_STRIDE != 0 ==> next == offset
  {
    if frameCount % SCANLINE_STRIDE == 0 then (offset + 1) % SCANLINE_PERIOD else offset
  }
}
