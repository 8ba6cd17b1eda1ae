/** The ASCII mouse trail: pointer moves spawn grid-snapped glyph spots
    into a queue capped at the 80 most recent, and two timed animations
    (a scatter when an interactive element is hovered, an idle glitch
    after the pointer rests) jostle the spots a few times and then clear
    the trail. Timers are explicit events; Math.random is supplied as
    inputs. */
module MouseTrail {
  import opened Common

  const GridSize: int := 32
  const GlyphCount: nat := 10
  const Capacity: nat := 80
  /** The scatter and the glitch each stop once their count exceeds this. */
  const StepLimit: nat := 3

  /** A spot: its pixel position, which of the ten glyphs it shows, and
      its size (always GridSize). */
  datatype Spot = Spot(x: int, y: int, glyph: nat, size: int)

  /** One random draw for a spot: a grid step in {-1, 0, 1} per axis and a
      glyph number (Math.floor(Math.random() * n)). */
  datatype Draw = Draw(dx: int, dy: int, glyph: nat)

  predicate DrawOk(d: Draw)
  {
    -1 <= d.dx <= 1 && -1 <= d.dy <= 1 && d.glyph < GlyphCount
  }

  predicate OnGrid(v: int)
  {
    v % GridSize == 0
  }

  predicate SpotOk(s: Spot)
  {
    OnGrid(s.x) && OnGrid(s.y) && s.glyph < GlyphCount && s.size == GridSize
  }

  predicate AllOk(t: seq<Spot>)
  {
    forall k :: 0 <= k < |t| ==> SpotOk(t[k])
  }

  lemma MultipleOnGrid(k: int)
    ensures OnGrid(k * GridSize)
  {
    DivModUnique(k * GridSize, GridSize, k, 0);
  }

  /** The pixel coordinate snapped to the nearest grid line, then offset
      by one grid step in the drawn direction. */
  function Snap(client: real, step: int): (v: int)
    requires -1 <= step <= 1
    ensures OnGrid(v)
    ensures client - 48.0 < v as real <= client + 48.0
  {
    var k := Round(client / 32.0);
    MultipleOnGrid(k + step);
    assert client == (client / 32.0) * 32.0;
    (k + step) * GridSize
  }

  /** A freshly spawned spot. */
  function SpawnSpot(clientX: real, clientY: real, d: Draw): (s: Spot)
    requires DrawOk(d)
    ensures SpotOk(s)
  {
    Spot(Snap(clientX, d.dx), Snap(clientY, d.dy), d.glyph, GridSize)
  }

  /** `.slice(-80)`: the last 80 entries, or all when there are fewer. */
  function KeepRecent(s: seq<Spot>): (r: seq<Spot>)
    ensures |r| == Min(|s| as real, Capacity as real) as int
    ensures |r| <= Capacity
    ensures r == s[|s| - |r|..]
  {
    if |s| <= Capacity then s else s[|s| - Capacity..]
  }

  /** Appending to a capped trail keeps the newest spot last and drops at
      most the single oldest one. */
  lemma PushKeepsNewest(t: seq<Spot>, s: Spot)
    requires |t| <= Capacity
    ensures var r := KeepRecent(t + [s]);
      && r[|r| - 1] == s
      && (|t| < Capacity ==> r == t + [s])
      && (|t| == Capacity ==> r == t[1..] + [s])
  {
    var r := KeepRecent(t + [s]);
    if |t| == Capacity {
      assert r == (t + [s])[1..];
      assert (t + [s])[1..] == t[1..] + [s];
    }
  }

  /** One scatter or glitch step: every spot moves by its drawn grid steps
      and takes its drawn glyph. */
  function Jostle(t: seq<Spot>, draws: seq<Draw>): (r: seq<Spot>)
    requires |draws| == |t|
    ensures |r| == |t|
    ensures forall k :: 0 <= k < |r| ==>
      r[k].x == t[k].x + draws[k].dx * GridSize && r[k].y == t[k].y + draws[k].dy * GridSize
      && r[k].glyph == draws[k].glyph && r[k].size == t[k].size
  {
    seq(|t|, k requires 0 <= k < |t| =>
      Spot(t[k].x + draws[k].dx * GridSize, t[k].y + draws[k].dy * GridSize, draws[k].glyph, t[k].size))
  }

  /** A jostle keeps every spot on the grid. */
  lemma JostleKeepsGrid(t: seq<Spot>, draws: seq<Draw>)
    requires |draws| == |t| && AllOk(t)
    requires forall k :: 0 <= k < |draws| ==> DrawOk(draws[k])
    ensures AllOk(Jostle(t, draws))
  {
    var r := Jostle(t, draws);
    forall k | 0 <= k < |r|
      ensures SpotOk(r[k])
    {
      GridShift(t[k].x, draws[k].dx);
      GridShift(t[k].y, draws[k].dy);
    }
  }

  lemma GridShift(v: int, step: int)
    requires OnGrid(v)
    ensures OnGrid(v + step * GridSize)
  {
    DivModUnique(v + step * GridSize, GridSize, v / GridSize + step, 0);
  }

  class Trail {
    /** The rendered trail (React state). */
    var trail: seq<Spot>
    /** The queue new spots are appended to (a ref, not updated by the
      jostle steps). */
    var queue: seq<Spot>
    var visible: bool
    var hovering: bool
    var scattering: bool
    var fadeOut: bool
    /** The counts of the scatter intervals still running, oldest first:
      every hover start that finds a non-empty queue starts one, and
      nothing cancels one early. */
    var scatters: seq<nat>
    /** The zero-delay clears scheduled by finished scatters, not yet run. */
    var scatterClears: nat
    /** The 900 ms idle timeout is armed. */
    var idleArmed: bool
    /** The glitch interval's count while it runs. */
    var glitchCount: Option<nat>
    var glitchClearPending: bool

    ghost predicate Valid()
      reads this
    {
      && AllOk(trail) && AllOk(queue)
      && |trail| <= Capacity && |queue| <= Capacity
      && (forall k :: 0 <= k < |scatters| ==> scatters[k] <= StepLimit)
      && (glitchCount.Some? ==> glitchCount.value <= StepLimit)
    }

    /** Whether anything is drawn. */
    predicate Renders()
      reads this
    {
      visible && !(hovering && !scattering)
    }

    constructor ()
      ensures Valid()
      ensures trail == [] && queue == [] && !visible && !hovering && !scattering && !fadeOut
      ensures scatters == [] && scatterClears == 0 && !idleArmed
      ensures glitchCount == None && !glitchClearPending
    {
      trail, queue := [], [];
      visible, hovering, scattering, fadeOut := false, false, false, false;
      scatters, scatterClears, idleArmed := [], 0, false;
      glitchCount, glitchClearPending := None, false;
    }

    /** Mouse move. While hovering nothing happens; otherwise the trail
      becomes visible, a snapped spot is queued (keeping the 80 newest)
      and the idle timeout is re-armed. */
    method Move(clientX: real, clientY: real, d: Draw)
      requires Valid() && DrawOk(d)
      modifies this
      ensures Valid()
      ensures old(hovering) ==> trail == old(trail) && queue == old(queue) && visible == old(visible) && idleArmed == old(idleArmed)
      ensures !old(hovering) ==>
        && queue == KeepRecent(old(queue) + [SpawnSpot(clientX, clientY, d)])
        && trail == queue && visible && idleArmed
      ensures hovering == old(hovering) && scattering == old(scattering) && fadeOut == old(fadeOut)
      ensures scatters == old(scatters) && scatterClears == old(scatterClears)
      ensures glitchCount == old(glitchCount) && glitchClearPending == old(glitchClearPending)
    {
      if hovering {
        return;
      }
      visible := true;
      queue := KeepRecent(queue + [SpawnSpot(clientX, clientY, d)]);
      trail := queue;
      idleArmed := true;
    }

    /** The hover state changes (pointer over or out of an interactive
      element, or the suppress events). Setting the same value again does
      not re-run the effect. When hovering starts with a non-empty queue
      the idle timeout is cancelled and a scatter starts beside any still
      running (the effect has no cleanup); when it ends the fade is
      reset. */
    method SetHovering(h: bool)
      requires Valid()
      modifies this
      ensures Valid()
      ensures hovering == h
      ensures h == old(hovering) ==>
        (scattering == old(scattering) && fadeOut == old(fadeOut) && scatters == old(scatters) && idleArmed == old(idleArmed))
      ensures h && !old(hovering) && |queue| > 0 ==>
        scattering && !fadeOut && scatters == old(scatters) + [0] && !idleArmed
      ensures h && !old(hovering) && |queue| == 0 ==>
        scattering == old(scattering) && fadeOut == old(fadeOut) && scatters == old(scatters) && idleArmed == old(idleArmed)
      ensures !h && old(hovering) ==>
        !fadeOut && scattering == old(scattering) && scatters == old(scatters) && idleArmed == old(idleArmed)
      ensures trail == old(trail) && queue == old(queue) && visible == old(visible)
      ensures scatterClears == old(scatterClears)
      ensures glitchCount == old(glitchCount) && glitchClearPending == old(glitchClearPending)
    {
      if h == hovering {
        return;
      }
      hovering := h;
      if h && |queue| > 0 {
        idleArmed := false;
        scattering, fadeOut := true, false;
        scatters := scatters + [0];
      }
      if !h {
        fadeOut := false;
      }
    }

    /** `mouseover`: hovering starts when the event target lies inside a
      button, link or marked element. */
    method PointerOver(targetInteractive: bool)
      requires Valid()
      modifies this
      ensures Valid()
      ensures targetInteractive ==> hovering
      ensures !targetInteractive ==> hovering == old(hovering) && scattering == old(scattering) && scatters == old(scatters)
    {
      if targetInteractive {
        SetHovering(true);
      }
    }

    /** `mouseout`: hovering ends unless the pointer moved into another
      interactive element (a missing related target counts as leaving). */
    method PointerOut(relatedInteractive: bool)
      requires Valid()
      modifies this
      ensures Valid()
      ensures !relatedInteractive ==> !hovering && scattering == old(scattering) && scatters == old(scatters)
      ensures relatedInteractive ==> hovering == old(hovering) && scattering == old(scattering) && scatters == old(scatters)
    {
      if !relatedInteractive {
        SetHovering(false);
      }
    }

    /** An 80 ms tick of the i-th running scatter: the rendered trail is
      jostled; after its fourth tick that interval stops, the trail fades
      and a clear is scheduled. */
    method ScatterTick(i: nat, draws: seq<Draw>)
      requires Valid() && i < |scatters|
      requires |draws| == |trail| && forall k :: 0 <= k < |draws| ==> DrawOk(draws[k])
      modifies this
      ensures Valid()
      ensures trail == Jostle(old(trail), draws) && |trail| == |old(trail)|
      ensures old(scatters[i]) + 1 > StepLimit ==>
        scatters == old(scatters[..i] + scatters[i + 1..]) && fadeOut && scatterClears == old(scatterClears) + 1
      ensures old(scatters[i]) + 1 <= StepLimit ==>
        scatters == old(scatters[i := scatters[i] + 1]) && fadeOut == old(fadeOut) && scatterClears == old(scatterClears)
      ensures queue == old(queue) && visible == old(visible) && hovering == old(hovering) && scattering == old(scattering)
      ensures idleArmed == old(idleArmed) && glitchCount == old(glitchCount) && glitchClearPending == old(glitchClearPending)
    {
      JostleKeepsGrid(trail, draws);
      trail := Jostle(trail, draws);
      var c := scatters[i] + 1;
      if c > StepLimit {
        scatters := scatters[..i] + scatters[i + 1..];
        fadeOut := true;
        scatterClears := scatterClears + 1;
      } else {
        scatters := scatters[i := c];
      }
    }

    /** A zero-delay clear after a scatter: trail and queue are emptied and
      everything is hidden, even while a later scatter is still running. */
    method ScatterClear()
      requires Valid() && scatterClears > 0
      modifies this
      ensures Valid()
      ensures trail == [] && queue == [] && !visible && !scattering && !fadeOut && scatterClears == old(scatterClears) - 1
      ensures !Renders()
      ensures hovering == old(hovering) && scatters == old(scatters) && idleArmed == old(idleArmed)
      ensures glitchCount == old(glitchCount) && glitchClearPending == old(glitchClearPending)
    {
      trail, queue := [], [];
      visible, scattering, fadeOut := false, false, false;
      scatterClears := scatterClears - 1;
    }

    /** The idle timeout fires 900 ms after the last move: a glitch starts. */
    method IdleFire()
      requires Valid() && idleArmed
      modifies this
      ensures Valid()
      ensures !idleArmed && glitchCount == Some(0)
      ensures trail == old(trail) && queue == old(queue) && visible == old(visible) && hovering == old(hovering)
      ensures scattering == old(scattering) && fadeOut == old(fadeOut)
      ensures scatters == old(scatters) && scatterClears == old(scatterClears)
      ensures glitchClearPending == old(glitchClearPending)
    {
      idleArmed := false;
      glitchCount := Some(0);
    }

    /** A 40 ms glitch tick. If hovering has begun the glitch stops and the
      trail is cleared at once; otherwise the rendered trail is jostled,
      and after the fourth tick the interval stops and a 200 ms clear is
      scheduled. */
    method GlitchTick(draws: seq<Draw>)
      requires Valid() && glitchCount.Some?
      requires |draws| == |trail| && forall k :: 0 <= k < |draws| ==> DrawOk(draws[k])
      modifies this
      ensures Valid()
      ensures old(hovering) ==>
        trail == [] && queue == [] && !visible && glitchCount == None && glitchClearPending == old(glitchClearPending)
      ensures !old(hovering) ==> trail == Jostle(old(trail), draws) && queue == old(queue) && visible == old(visible)
      ensures !old(hovering) && old(glitchCount.value) + 1 > StepLimit ==> glitchCount == None && glitchClearPending
      ensures !old(hovering) && old(glitchCount.value) + 1 <= StepLimit ==>
        glitchCount == Some(old(glitchCount.value) + 1) && glitchClearPending == old(glitchClearPending)
      ensures hovering == old(hovering) && scattering == old(scattering) && fadeOut == old(fadeOut)
      ensures scatters == old(scatters) && scatterClears == old(scatterClears) && idleArmed == old(idleArmed)
    {
      if hovering {
        glitchCount := None;
        trail, queue := [], [];
        visible := false;
        return;
      }
      JostleKeepsGrid(trail, draws);
      trail := Jostle(trail, draws);
      var c := glitchCount.value + 1;
      if c > StepLimit {
        glitchCount := None;
        glitchClearPending := true;
      } else {
        glitchCount := Some(c);
      }
    }

    /** The 200 ms clear after a glitch. */
    method GlitchClear()
      requires Valid() && glitchClearPending
      modifies this
      ensures Valid()
      ensures trail == [] && queue == [] && !visible && !glitchClearPending
      ensures !Renders()
      ensures hovering == old(hovering) && scattering == old(scattering) && fadeOut == old(fadeOut)
      ensures scatters == old(scatters) && scatterClears == old(scatterClears)
      ensures idleArmed == old(idleArmed) && glitchCount == old(glitchCount)
    {
      trail, queue := [], [];
      visible := false;
      glitchClearPending := false;
    }
  }

  /** Hovering off and on again during a scatter leaves two scatter
      intervals running side by side. */
  method RehoverDuringScatter() returns (live: nat)
    ensures live == 2
  {
    var t := new Trail();
    t.Move(100.0, 100.0, Draw(0, 0, 0));
    t.SetHovering(true);
    t.ScatterTick(0, [Draw(1, 0, 0)]);
    t.SetHovering(false);
    t.SetHovering(true);
    live := |t.scatters|;
  }
}
