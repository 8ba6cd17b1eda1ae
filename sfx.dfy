/** The sound-effect hook: a one-shot sample player routed through the
    global audio bus when there is one, throttled, silenced by the global
    mute, with a short attack/release gain envelope. The Web Audio graph,
    fetching and decoding are left out; what remains is which calls start
    a sound, at what rate, and the gain envelope they schedule. */
module Sfx {
  import opened Common

  const DefaultAttackMs: real := 3.0
  const DefaultReleaseMs: real := 20.0

  /* ---------------- the global bus ---------------- */

  /** What the window exposes as the global bus: whether it carries an
      audio context and a bus gain node. */
  datatype Bus = Bus(hasContext: bool, hasBusGain: bool)

  /** `getGlobalBus`: the bus only when there is a window and the bus has
      both a context and a bus gain; otherwise none. */
  function GlobalBus(hasWindow: bool, bus: Option<Bus>): (r: Option<Bus>)
    ensures r.Some? <==> hasWindow && bus.Some? && bus.value.hasContext && bus.value.hasBusGain
    ensures r.Some? ==> r == bus
  {
    if !hasWindow then None
    else if bus.Some? && bus.value.hasContext && bus.value.hasBusGain then bus
    else None
  }

  /* ---------------- playback rate ---------------- */

  /** The playback-rate setting: a [min, max] pair or a single number. */
  datatype RateSetting = Range(lo: real, hi: real) | Fixed(rate: real)

  /** `pickRate`: min + Math.random() * (max - min) for a pair, the number
      itself otherwise; the draw r is in [0, 1). */
  function PickRate(s: RateSetting, r: real): (rate: real)
    requires 0.0 <= r < 1.0
    ensures s.Fixed? ==> rate == s.rate
    ensures s.Range? && s.lo <= s.hi ==> s.lo <= rate <= s.hi
    ensures s.Range? && s.hi <= s.lo ==> s.hi <= rate <= s.lo
  {
    match s
    case Fixed(v) => v
    case Range(lo, hi) =>
      var p := (hi - lo) * r;
      RateStep(lo, hi, r, p);
      lo + p
  }

  lemma RateStep(lo: real, hi: real, r: real, p: real)
    requires 0.0 <= r <= 1.0 && p == (hi - lo) * r
    ensures lo <= hi ==> 0.0 <= p <= hi - lo
    ensures hi <= lo ==> hi - lo <= p <= 0.0
  {
    var d := hi - lo;
    assert d - p == d * (1.0 - r);
    if lo <= hi {
      NonNegProduct(d, r);
      NonNegProduct(d, 1.0 - r);
    } else {
      NonNegProduct(-d, r);
      NonNegProduct(-d, 1.0 - r);
      assert -p == (-d) * r;
      assert p - d == (-d) * (1.0 - r);
    }
  }

  /* ---------------- level and envelope ---------------- */

  /** The level of one sound: the provider's master volume (1 without a
      provider or volume) times the per-effect volume. No clamping. */
  function Level(masterVolume: Option<real>, volume: real): (level: real)
    ensures masterVolume.None? ==> level == volume
    ensures masterVolume.Some? ==> level == masterVolume.value * volume
    ensures masterVolume.Some? && 0.0 <= masterVolume.value <= 1.0 && 0.0 <= volume ==> 0.0 <= level <= volume
  {
    if masterVolume.None? then volume
    else
      var m := masterVolume.value;
      ScaledBelow(m, volume, m * volume);
      m * volume
  }

  lemma ScaledBelow(m: real, v: real, p: real)
    requires p == m * v
    ensures 0.0 <= m <= 1.0 && 0.0 <= v ==> 0.0 <= p <= v
  {
    MulUnitBound(v, m);
    assert p == v * m;
  }

  /** The gain envelope scheduled for one sound: 0 at `start`, rising
      linearly to `peak` at `peakTime`, falling linearly to 0 at
      `endTime`. */
  datatype Envelope = Envelope(start: real, peakTime: real, peak: real, endTime: real)

  /** The envelope for a sound starting at context time `now` (seconds):
      the attack and release are in milliseconds, the buffer lasts
      `duration` seconds. */
  function EnvelopeFor(now: real, attackMs: real, releaseMs: real, duration: real, level: real): (e: Envelope)
    ensures e.start == now && e.peak == level
    ensures e.peakTime - e.start == attackMs / 1000.0
    ensures e.endTime - e.start == (attackMs + releaseMs) / 1000.0 + duration
    ensures 0.0 <= attackMs ==> e.start <= e.peakTime
    ensures 0.0 <= releaseMs && 0.0 <= duration ==> e.peakTime <= e.endTime
  {
    Envelope(now, now + attackMs / 1000.0, level, now + (attackMs + releaseMs) / 1000.0 + duration)
  }

  /** The gain at time t as the scheduled linear ramps give it. */
  function GainAt(e: Envelope, t: real): (g: real)
    requires e.start <= e.peakTime <= e.endTime && 0.0 <= e.peak
    ensures 0.0 <= g <= e.peak
    ensures t <= e.start || e.endTime < t ==> g == 0.0
    ensures e.peakTime < e.endTime <= t ==> g == 0.0
    ensures e.start < e.peakTime && t == e.peakTime ==> g == e.peak
  {
    if t <= e.start then 0.0
    else if t <= e.peakTime then
      Ramp(e.peak, t - e.start, e.peakTime - e.start);
      RampValue(e.peak, t - e.start, e.peakTime - e.start)
    else if t < e.endTime then
      Ramp(e.peak, e.endTime - t, e.endTime - e.peakTime);
      RampValue(e.peak, e.endTime - t, e.endTime - e.peakTime)
    else 0.0
  }

  /** The gain a of the way w along a linear ramp to `peak`. */
  function RampValue(peak: real, a: real, w: real): real
    requires w > 0.0
  {
    peak * (a / w)
  }

  /** A point on a ramp has a gain between 0 and the peak, reaching the
      peak at the end. */
  lemma Ramp(peak: real, a: real, w: real)
    requires 0.0 <= a <= w && w > 0.0 && 0.0 <= peak
    ensures 0.0 <= RampValue(peak, a, w) <= peak
    ensures a == w ==> RampValue(peak, a, w) == peak
  {
    UnitFraction(a, w);
    MulUnitBound(peak, a / w);
    if a == w {
      DivSelf(w);
    }
  }

  /** The envelope rises while attacking: later points of the attack ramp
      are louder. */
  lemma AttackRises(e: Envelope, t1: real, t2: real)
    requires e.start <= t1 <= t2 <= e.peakTime <= e.endTime && e.start < e.peakTime && 0.0 <= e.peak
    ensures GainAt(e, t1) <= GainAt(e, t2)
  {
    var w := e.peakTime - e.start;
    if t1 > e.start {
      var f1, f2 := (t1 - e.start) / w, (t2 - e.start) / w;
      assert GainAt(e, t1) == e.peak * f1;
      assert GainAt(e, t2) == e.peak * f2;
      DivMonotone(t1 - e.start, t2 - e.start, w);
      ScaleMonotone(e.peak, f1, f2, e.peak * f1, e.peak * f2);
    }
  }

  lemma ScaleMonotone(k: real, a: real, b: real, ka: real, kb: real)
    requires 0.0 <= k && a <= b && ka == k * a && kb == k * b
    ensures ka <= kb
  {
    assert kb - ka == (b - a) * k;
    MulUnitBound(b - a, 0.0);
    NonNegProduct(b - a, k);
  }

  /* ---------------- the player ---------------- */

  /** One sound started: its playback rate and its start time in context
      seconds. Every sound plays through the hook's one gain node, so what
      it is heard with is the node's current schedule, not an envelope of
      its own. */
  datatype Sound = Sound(rate: real, start: real)

  /** The hook's state: the time of the last accepted call, whether the
      effect is still mounted, whether the context, gain node and decoded
      buffer exist, the sounds started so far, and the automation currently
      scheduled on the shared gain node (`None` while it holds the constant
      gain 1 it was created with). */
  class Player {
    const setting: RateSetting
    const volume: real
    const throttleMs: real
    const attackMs: real
    const releaseMs: real
    /** Whether the gain node is wired to the global bus. */
    const usingBus: bool
    var mounted: bool
    var hasContext: bool
    var hasGain: bool
    var hasBuffer: bool
    var lastCall: real
    var started: seq<Sound>
    var schedule: Option<Envelope>

    /** Mount: the context and gain node come from the global bus when
      there is one and are made locally otherwise; decoding starts. */
    constructor (bus: Option<Bus>, setting: RateSetting, volume: real, throttleMs: real, attackMs: real, releaseMs: real)
      ensures usingBus == bus.Some? && hasContext && hasGain && !hasBuffer && mounted
      ensures this.setting == setting && this.volume == volume && this.throttleMs == throttleMs
      ensures this.attackMs == attackMs && this.releaseMs == releaseMs
      ensures lastCall == 0.0 && started == [] && schedule == None
    {
      this.setting, this.volume, this.throttleMs := setting, volume, throttleMs;
      this.attackMs, this.releaseMs := attackMs, releaseMs;
      usingBus := bus.Some?;
      mounted, hasContext, hasGain, hasBuffer := true, true, true, false;
      lastCall, started, schedule := 0.0, [], None;
    }

    /** Decoding finished (or failed): the buffer is kept only while still
      mounted. */
    method Decoded(ok: bool)
      modifies this`hasBuffer
      ensures hasBuffer == (old(hasBuffer) || (ok && mounted))
    {
      if ok && mounted {
        hasBuffer := true;
      }
    }

    method Unmount()
      modifies this`mounted
      ensures !mounted
    {
      mounted := false;
    }

    /** Whether a call at `now` falls inside the throttle window (a zero
      throttle never does). */
    predicate Throttled(now: real)
      reads this
    {
      throttleMs != 0.0 && now - lastCall < throttleMs
    }

    /** A call: dropped inside the throttle window; otherwise it is
      accepted (the window restarts even when muted), and it starts a
      sound only when not muted and context, gain and buffer exist. A
      sound that starts cancels whatever was scheduled on the shared gain
      node and replaces it with its own envelope, which every sound still
      playing is then heard through. */
    method Call(now: real, muted: bool, masterVolume: Option<real>, r: real, ctxTime: real, duration: real)
      requires 0.0 <= r < 1.0
      modifies this`lastCall, this`started, this`schedule
      ensures old(Throttled(now)) ==> lastCall == old(lastCall) && started == old(started) && schedule == old(schedule)
      ensures !old(Throttled(now)) ==> lastCall == now
      ensures muted || !(hasContext && hasGain && hasBuffer) ==> started == old(started) && schedule == old(schedule)
      ensures !old(Throttled(now)) && !muted && hasContext && hasGain && hasBuffer ==>
        && started == old(started) + [Sound(PickRate(setting, r), ctxTime)]
        && schedule == Some(EnvelopeFor(ctxTime, attackMs, releaseMs, duration, Level(masterVolume, volume)))
    {
      if throttleMs != 0.0 && now - lastCall < throttleMs {
        return;
      }
      lastCall := now;
      if muted {
        return;
      }
      if !hasContext || !hasGain || !hasBuffer {
        return;
      }
      var rate := PickRate(setting, r);
      var level := Level(masterVolume, volume);
      started := started + [Sound(rate, ctxTime)];
      schedule := Some(EnvelopeFor(ctxTime, attackMs, releaseMs, duration, level));
    }
  }

  /** A muted call still uses up the throttle window: a second call right
      after it is dropped even once unmuted. */
  method MutedCallThrottles() returns (startedAfterUnmute: bool)
    ensures !startedAfterUnmute
  {
    var p := new Player(Some(Bus(true, true)), Fixed(1.0), 1.0, 120.0, DefaultAttackMs, DefaultReleaseMs);
    p.Decoded(true);
    p.Call(1000.0, true, None, 0.0, 1.0, 0.5);
    p.Call(1050.0, false, None, 0.0, 1.05, 0.5);
    startedAfterUnmute := |p.started| > 0;
  }

  /** A second sound cuts the first: 100 ms after a half-second sound
      starts its own envelope would still be releasing, but the next
      accepted call resets the shared gain node to 0 at that instant. */
  method OverlapCutsEarlierSound() returns (firstAlone: real, nodeGain: real, playing: nat)
    ensures firstAlone > 0.0 && nodeGain == 0.0 && playing == 2
  {
    var p := new Player(Some(Bus(true, true)), Fixed(1.0), 1.0, 120.0, DefaultAttackMs, DefaultReleaseMs);
    p.Decoded(true);
    p.Call(1000.0, false, None, 0.0, 1.0, 0.5);
    var first := p.schedule.value;
    p.Call(1200.0, false, None, 0.0, 1.1, 0.5);
    firstAlone := GainAt(first, 1.1);
    nodeGain := GainAt(p.schedule.value, 1.1);
    playing := |p.started|;
  }
}
