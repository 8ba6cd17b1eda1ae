/** The background-music provider: the persisted mute flag and volume,
    the reversed copy of the decoded track used for scratch bursts, the
    fading mute toggle, and the reaction to the works grid's velocity
    (playback rate and low-pass cutoff, and short reversed grains on a
    fast leftward fling). The media element, the Web Audio graph and
    storage are reduced to the flags and numbers they hold. */
module AudioProvider {
  import opened Common

  const FadeMs: real := 220.0
  const InitialVolume: real := 0.01
  const BurstGapMs: real := 140.0
  const GrainDuration: real := 0.22
  const GrainPeak: real := 0.28
  const FlingVx: real := -4.0
  const MinRate: real := 0.5
  const MaxRate: real := 1.7
  const RateFollow: real := 0.2

  /* ---------------- persistence ---------------- */

  /** What storage holds: the mute flag as a string and the volume as a
      number (its string form read back with parseFloat). */
  datatype Stored = Stored(muted: Option<string>, volume: Option<real>)

  /** Writing the mute flag: "1" or "0". */
  function MutedString(m: bool): (s: string)
    ensures s == "1" <==> m
    ensures s == "0" <==> !m
  {
    if m then "1" else "0"
  }

  /** Hydration: a stored flag sets muted exactly when it is "1"; a stored
      volume is clamped into [0, 1]; what is absent keeps its value. */
  function Hydrate(stored: Stored, muted: bool, volume: real): (r: (bool, real))
    ensures stored.muted.Some? ==> (r.0 <==> stored.muted.value == "1")
    ensures stored.muted.None? ==> r.0 == muted
    ensures stored.volume.Some? ==> 0.0 <= r.1 <= 1.0
    ensures stored.volume.Some? && 0.0 <= stored.volume.value <= 1.0 ==> r.1 == stored.volume.value
    ensures stored.volume.None? ==> r.1 == volume
  {
    (if stored.muted.Some? then stored.muted.value == "1" else muted,
     if stored.volume.Some? then Max(0.0, Min(1.0, stored.volume.value)) else volume)
  }

  /** What the persistence effects write for a state. */
  function Persist(muted: bool, volume: real): Stored
  {
    Stored(Some(MutedString(muted)), Some(volume))
  }

  /** Persisting and hydrating again gives back the mute flag and any
      volume in [0, 1]. */
  lemma PersistRoundTrip(muted: bool, volume: real, m0: bool, v0: real)
    requires 0.0 <= volume <= 1.0
    ensures Hydrate(Persist(muted, volume), m0, v0) == (muted, volume)
  {
    var s := Persist(muted, volume);
    assert s.muted.value == "1" <==> muted;
  }

  /* ---------------- reversed buffer ---------------- */

  /** The samples in reverse order. */
  function Reverse(s: seq<real>): (r: seq<real>)
    ensures |r| == |s|
  {
    if |s| == 0 then [] else Reverse(s[1..]) + [s[0]]
  }

  /** Sample i of the reversed samples is sample |s| - 1 - i. */
  lemma {:induction false} ReverseAt(s: seq<real>, i: int)
    requires 0 <= i < |s|
    ensures Reverse(s)[i] == s[|s| - 1 - i]
  {
    if i < |s| - 1 {
      ReverseAt(s[1..], i);
    }
  }

  /** Reversing twice gives the original samples back. */
  lemma ReverseTwice(s: seq<real>)
    ensures Reverse(Reverse(s)) == s
  {
    forall i | 0 <= i < |s|
      ensures Reverse(Reverse(s))[i] == s[i]
    {
      ReverseAt(Reverse(s), i);
      ReverseAt(s, |s| - 1 - i);
    }
  }

  /** One channel of the reversed buffer, filled with the two running
      indices i (forward) and j (backward). */
  method ReverseChannel(s: array<real>) returns (d: array<real>)
    ensures fresh(d) && d.Length == s.Length
    ensures d[..] == Reverse(s[..])
  {
    d := new real[s.Length];
    var i, j := 0, s.Length - 1;
    while i < s.Length
      invariant 0 <= i <= s.Length && j == s.Length - 1 - i
      invariant forall k :: 0 <= k < i ==> d[k] == s[s.Length - 1 - k]
    {
      d[i] := s[j];
      i, j := i + 1, j - 1;
    }
    forall k | 0 <= k < s.Length
      ensures d[k] == Reverse(s[..])[k]
    {
      ReverseAt(s[..], k);
    }
  }

  /** The reversed buffer: as many channels, each as long, each the
      reverse of its forward channel. The sample rate is copied. */
  method ReverseBuffer(channels: seq<array<real>>) returns (rev: seq<array<real>>)
    ensures |rev| == |channels|
    ensures forall ch :: 0 <= ch < |rev| ==> fresh(rev[ch]) && rev[ch].Length == channels[ch].Length
    ensures forall ch :: 0 <= ch < |rev| ==> rev[ch][..] == Reverse(channels[ch][..])
  {
    rev := [];
    var ch := 0;
    while ch < |channels|
      invariant 0 <= ch <= |channels| && |rev| == ch
      invariant forall c :: 0 <= c < ch ==> fresh(rev[c]) && rev[c].Length == channels[c].Length
      invariant forall c :: 0 <= c < ch ==> rev[c][..] == Reverse(channels[c][..])
    {
      var d := ReverseChannel(channels[ch]);
      rev := rev + [d];
      ch := ch + 1;
    }
  }

  /* ---------------- fades and scratch ---------------- */

  /** `setTargetAtTime`'s time constant for a fade of `ms` milliseconds:
      a fifth of the fade, at least 10 ms. */
  function TimeConstant(ms: real): (tc: real)
    ensures tc >= 0.01
    ensures ms >= 50.0 ==> tc * 5.0 == ms / 1000.0
    ensures ms <= 50.0 ==> tc == 0.01
  {
    Max(0.01, (ms / 1000.0) / 5.0)
  }

  /** The default fade settles with a 44 ms time constant. */
  lemma DefaultFadeConstant()
    ensures TimeConstant(FadeMs) == 0.044
  {
  }

  /** How fast the grid moves, from its velocity's length: 0 at rest, 1
      from 12 up. */
  function Speed(magnitude: real): (s: real)
    requires magnitude >= 0.0
    ensures 0.0 <= s <= 1.0
    ensures magnitude <= 12.0 ==> s * 12.0 == magnitude
  {
    Min(1.0, magnitude / 12.0)
  }

  /** `Math.sign(vx) || 0` */
  function Sign(x: real): (s: real)
    ensures s == 1.0 || s == 0.0 || s == -1.0
    ensures s * x >= 0.0 && (s == 0.0 <==> x == 0.0)
  {
    if x > 0.0 then 1.0 else if x < 0.0 then -1.0 else 0.0
  }

  /** The playback rate aimed at: faster moving right, slower moving
      left, kept in [0.5, 1.7]. */
  function TargetRate(vx: real, speed: real): (r: real)
    requires 0.0 <= speed <= 1.0
    ensures MinRate <= r <= MaxRate
    ensures vx == 0.0 ==> r == 1.0
    ensures vx > 0.0 ==> r >= 1.0
    ensures vx < 0.0 ==> r <= 1.0
  {
    MulUnitBound(0.7, speed);
    Clamp(1.0 + Sign(vx) * 0.7 * speed, MinRate, MaxRate)
  }

  /** The low-pass cutoff: 18 kHz at rest, down to 2 kHz at full speed. */
  function CutoffHz(speed: real): (hz: real)
    requires 0.0 <= speed <= 1.0
    ensures 2000.0 <= hz <= 18000.0
    ensures speed == 0.0 ==> hz == 18000.0
    ensures speed == 1.0 ==> hz == 2000.0
  {
    MulUnitBound(16000.0, speed);
    18000.0 - speed * 16000.0
  }

  /** Where a reversed grain starts in the reversed track: the grain ends
      at the mirror of the element's position (0 when unknown, kept within
      [0, duration - 0.05]), and never starts before the track does. */
  function GrainOffset(elementTime: Option<real>, duration: real): (offset: real)
    ensures offset >= 0.0
    ensures elementTime.Some? && 0.0 <= elementTime.value <= duration - 0.05 && elementTime.value + GrainDuration <= duration ==>
      offset + GrainDuration == duration - elementTime.value
    ensures elementTime.None? && duration >= GrainDuration ==> offset == duration - GrainDuration
  {
    var pos := Max(0.0, Min(duration - 0.05, if elementTime.Some? then elementTime.value else 0.0));
    Max(0.0, duration - pos - GrainDuration)
  }

  /** A scheduled reversed grain: offset into the reversed track and the
      peak of its gain. */
  datatype Grain = Grain(offset: real, peak: real)

  /** A bus fade: the target gain and the time constant. */
  datatype Fade = Fade(target: real, timeConstant: real)

  /** The provider's state. The element and the graph exist from mount
      (graph-less and element-less states are the unmounted page), the
      decoded track arrives later. */
  class Provider {
    const enableReverseGrain: bool
    var hasElement: bool
    var hasGraph: bool
    /** Duration of the decoded (and reversed) track, once decoded. */
    var decoded: Option<real>
    var playing: bool
    var muted: bool
    var volume: real
    var stored: Stored
    var playbackRate: real
    var cutoffHz: real
    var fades: seq<Fade>
    var broadcasts: seq<bool>
    var lastBurst: real
    var grains: seq<Grain>

    /** The playback rate stays in [0.5, 1.7] and the cutoff in
      [2 kHz, 18 kHz]. */
    ghost predicate Valid()
      reads this
    {
      MinRate <= playbackRate <= MaxRate && 2000.0 <= cutoffHz <= 18000.0
    }

    /** Mount, then hydration from storage. */
    constructor (enableReverseGrain: bool, stored: Stored)
      ensures Valid()
      ensures this.enableReverseGrain == enableReverseGrain && hasElement && hasGraph && decoded.None?
      ensures !playing && (muted, volume) == Hydrate(stored, false, InitialVolume)
      ensures this.stored == Persist(muted, volume)
      ensures fades == [] && broadcasts == [] && grains == [] && lastBurst == 0.0
    {
      this.enableReverseGrain := enableReverseGrain;
      hasElement, hasGraph, decoded := true, true, None;
      playing := false;
      var h := Hydrate(stored, false, InitialVolume);
      muted, volume := h.0, h.1;
      this.stored := Persist(h.0, h.1);
      playbackRate, cutoffHz := 1.0, 16000.0;
      fades, broadcasts, grains, lastBurst := [], [], [], 0.0;
    }

    /** The track was decoded and reversed. */
    method Decoded(duration: real)
      modifies this`decoded
      ensures decoded == Some(duration)
    {
      decoded := Some(duration);
    }

    /** `play`: with an element, playing starts when the browser lets it
      (`ok`). */
    method Play(ok: bool)
      modifies this`playing
      ensures playing == (old(playing) || (hasElement && ok))
    {
      if hasElement && ok {
        playing := true;
      }
    }

    /** `pause`: the element pauses, and its pause listener clears
      `playing`; without an element nothing happens. */
    method Pause()
      modifies this`playing
      ensures playing == (old(playing) && !hasElement)
    {
      if hasElement {
        playing := false;
      }
    }

    /** `fadeBusTo`: needs the bus gain and context. */
    method FadeBusTo(target: real)
      modifies this`fades
      ensures fades == old(fades) + (if hasGraph then [Fade(target, TimeConstant(FadeMs))] else [])
    {
      if !hasGraph {
        return;
      }
      fades := fades + [Fade(target, TimeConstant(FadeMs))];
    }

    /** `toggleMuted`: muting fades the bus out; unmuting first plays, then
      fades it in. Either way the flag flips, is stored and broadcast. */
    method ToggleMuted(playOk: bool)
      requires Valid()
      modifies this
      ensures Valid()
      ensures muted == !old(muted) && stored == Persist(muted, volume) && volume == old(volume)
      ensures broadcasts == old(broadcasts) + [muted]
      ensures fades == old(fades) + (if hasGraph then [Fade(if muted then 0.0 else 1.0, TimeConstant(FadeMs))] else [])
      ensures playing == (old(playing) || (!muted && hasElement && playOk))
      ensures grains == old(grains) && lastBurst == old(lastBurst) && playbackRate == old(playbackRate)
      ensures hasElement == old(hasElement) && hasGraph == old(hasGraph) && decoded == old(decoded)
    {
      var next := !muted;
      if next {
        FadeBusTo(0.0);
      } else {
        Play(playOk);
        FadeBusTo(1.0);
      }
      muted := next;
      stored := Persist(muted, volume);
      broadcasts := broadcasts + [next];
    }

    /** The exposed `setVolume`: stored as given, without clamping. */
    method SetVolume(v: real)
      modifies this`volume, this`stored
      ensures volume == v && stored == Persist(muted, v)
    {
      volume := v;
      stored := Persist(muted, volume);
    }

    /** Overlay done, reveal done or a user gesture: play unless muted or
      already playing. */
    method TryPlay(ok: bool)
      modifies this`playing
      ensures playing == (old(playing) || (!muted && hasElement && ok))
    {
      if !muted && !playing {
        Play(ok);
      }
    }

    /** `reactSimple`: the playback rate moves a fifth of the way to the
      target rate and the cutoff is retargeted; `magnitude` is
      Math.hypot(vx, vy). */
    method ReactSimple(vx: real, magnitude: real)
      requires Valid() && magnitude >= 0.0
      modifies this`playbackRate, this`cutoffHz
      ensures Valid()
      ensures !hasElement || !hasGraph ==> playbackRate == old(playbackRate) && cutoffHz == old(cutoffHz)
      ensures hasElement && hasGraph ==>
        var target := TargetRate(vx, Speed(magnitude));
        && target - playbackRate == (1.0 - RateFollow) * (target - old(playbackRate))
        && cutoffHz == CutoffHz(Speed(magnitude))
    {
      if !hasElement || !hasGraph {
        return;
      }
      var speed := Speed(magnitude);
      var target := TargetRate(vx, speed);
      playbackRate := Approach(playbackRate, target, RateFollow);
      cutoffHz := CutoffHz(speed);
    }

    /** `reverseBurst`: nothing when disabled or muted, before the track is
      decoded, or within 140 ms of the last burst; otherwise a grain of the
      reversed track is scheduled, peaking at 0.28 times the volume kept
      in [0, 1]. */
    method ReverseBurst(now: real, elementTime: Option<real>)
      modifies this`lastBurst, this`grains
      ensures !enableReverseGrain || muted || !hasGraph || decoded.None? || now - old(lastBurst) < BurstGapMs ==>
        lastBurst == old(lastBurst) && grains == old(grains)
      ensures enableReverseGrain && !muted && hasGraph && decoded.Some? && now - old(lastBurst) >= BurstGapMs ==>
        lastBurst == now &&
        grains == old(grains) + [Grain(GrainOffset(elementTime, decoded.value), GrainPeak * Clamp(volume, 0.0, 1.0))]
      ensures forall k :: |old(grains)| <= k < |grains| ==> 0.0 <= grains[k].offset && 0.0 <= grains[k].peak <= GrainPeak
    {
      if !enableReverseGrain || muted {
        return;
      }
      if !hasGraph || decoded.None? {
        return;
      }
      if now - lastBurst < BurstGapMs {
        return;
      }
      lastBurst := now;
      var master := Clamp(volume, 0.0, 1.0);
      MulUnitBound(GrainPeak, master);
      grains := grains + [Grain(GrainOffset(elementTime, decoded.value), GrainPeak * master)];
    }

    /** The grid's velocity event: try to play, react, and burst on a fast
      leftward fling. */
    method Velocity(vx: real, magnitude: real, playOk: bool, now: real, elementTime: Option<real>)
      requires Valid() && magnitude >= 0.0
      modifies this`playing, this`playbackRate, this`cutoffHz, this`lastBurst, this`grains
      ensures Valid()
      ensures vx >= FlingVx ==> grains == old(grains) && lastBurst == old(lastBurst)
      ensures playing == (old(playing) || (!muted && hasElement && playOk))
    {
      TryPlay(playOk);
      ReactSimple(vx, magnitude);
      if vx < FlingVx {
        ReverseBurst(now, elementTime);
      }
    }
  }
}
