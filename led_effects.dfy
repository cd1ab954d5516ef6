/** The manual LED effects: the ordered set of effect names the rotary encoder cycles
    through, and the bouncing brightness counter shared by the fade and breathing effects. */
module LedEffects {

  /** The effects in encoder order. */
  const EffectNames: seq<string> := ["solid", "blink", "fade", "breathing"]

  /** `modeCount`. */
  const MODE_COUNT: nat := 4

  /** One encoder detent: forward (position grew) or backward, wrapping around the four
      effects in either direction. */
  function CycleEffect(index: nat, forward: bool): (next: nat)
    requires index < MODE_COUNT
    ensures next < MODE_COUNT
    ensures forward ==> (next == 0 <==> index == MODE_COUNT - 1)
    ensures forward && index < MODE_COUNT - 1 ==> next == index + 1
    ensures !forward ==> (next == MODE_COUNT - 1 <==> index == 0)
    ensures !forward && index > 0 ==> next == index - 1
  {
    if forward then (index + 1) % MODE_COUNT else (index - 1 + MODE_COUNT) % MODE_COUNT
  }

  /** Turning the knob one detent and back again restores the effect. */
  lemma CycleEffectUndo(index: nat, forward: bool)
    requires index < MODE_COUNT
    ensures CycleEffect(CycleEffect(index, forward), !forward) == index
  {
  }

  /** Four detents in one direction come back to the same effect. */
  lemma CycleEffectFullTurn(index: nat, forward: bool)
    requires index < MODE_COUNT
    ensures CycleEffect(CycleEffect(CycleEffect(CycleEffect(index, forward), forward), forward), forward) == index
  {
  }

  // ---------------------------------------------------------------------------
  // Brightness bounce (fade and breathing)
  // ---------------------------------------------------------------------------

  const BRIGHTNESS_STEP: int := 5
  const MAX_BRIGHTNESS: int := 255

  /** The states a bouncing counter reaches from its start (0, +5): a multiple of 5 in
      [0, 255], rising below the top or falling above the bottom. */
  predicate BounceInv(level: int, delta: int)
  {
    level % BRIGHTNESS_STEP == 0 &&
    ((delta == BRIGHTNESS_STEP && 0 <= level < MAX_BRIGHTNESS) ||
     (delta == -BRIGHTNESS_STEP && 0 < level <= MAX_BRIGHTNESS))
  }

  /** One step of the counter: add the delta, then reverse the delta if the level has
      reached either end. */
  function Bounce(level: int, delta: int): (r: (int, int))
    ensures r.0 == level + delta
    ensures r.1 == delta || r.1 == -delta
    ensures BounceInv(level, delta) ==> BounceInv(r.0, r.1) && 0 <= r.0 <= MAX_BRIGHTNESS
    ensures BounceInv(level, delta) ==> (r.1 == -delta <==> r.0 == 0 || r.0 == MAX_BRIGHTNESS)
  {
    var next := level + delta;
    (next, if next >= MAX_BRIGHTNESS || next <= 0 then -delta else delta)
  }

  /** The counter's start values (`fadeBrightness = 0; fadeDelta = 5`). */
  const BounceStart: (int, int) := (0, BRIGHTNESS_STEP)

  /** One full bounce takes 51 steps up and 51 steps down. */
  const BOUNCE_PERIOD: nat := 102

  /** The counter at phase p of a bounce: a triangle wave 0, 5, ..., 255, 250, ..., 5. */
  function Phase(p: nat): (r: (int, int))
    requires p < BOUNCE_PERIOD
  {
    if p < 51 then (5 * p, BRIGHTNESS_STEP)
    else (5 * (BOUNCE_PERIOD - p), -BRIGHTNESS_STEP)
  }

  /** The counter after `k` steps from its start. */
  function BounceTimes(k: nat): (int, int)
  {
    if k == 0 then BounceStart else var prev := BounceTimes(k - 1); Bounce(prev.0, prev.1)
  }

  lemma BounceStepsPhase(p: nat)
    requires p < BOUNCE_PERIOD
    ensures Bounce(Phase(p).0, Phase(p).1) == Phase(if p == BOUNCE_PERIOD - 1 then 0 else p + 1)
  {
  }

  /** Over one period the counter follows the triangle wave exactly: it reaches 255 only
      at step 51 and comes back to 0 only at step 102, never overshooting or sticking at
      an end. */
  lemma {:induction false} BounceFirstPeriod(k: nat)
    requires k < BOUNCE_PERIOD
    ensures BounceTimes(k) == Phase(k)
    ensures 0 <= BounceTimes(k).0 <= MAX_BRIGHTNESS
  {
    if k > 0 {
      BounceFirstPeriod(k - 1);
      BounceStepsPhase(k - 1);
    }
  }

  /** After a full period the counter is back at its start and repeats itself. */
  lemma {:induction false} BouncePeriodic(k: nat)
    ensures BounceTimes(k + BOUNCE_PERIOD) == BounceTimes(k)
  {
    if k == 0 {
      BounceFirstPeriod(BOUNCE_PERIOD - 1);
    } else {
      BouncePeriodic(k - 1);
      assert k + BOUNCE_PERIOD - 1 == (k - 1) + BOUNCE_PERIOD;
    }
  }
}
