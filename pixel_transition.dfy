/** The page-transition overlay: on `play` the viewport is tiled with
    square cells that light up in random order (the cover), the caller's
    callback navigates, and after two animation frames the cells go dark
    again (the reveal), after which the overlay hides, empties its grid and
    announces that the reveal is done. Timeline completions and animation
    frames are explicit events; a run is identified by a generation
    number so that a completion can be traced to the `play` that
    scheduled it. */
module PixelTransition {
  import opened Common

  const DefaultPixelSize: real := 80.0
  /** The stagger spacing is the duration per cell times this factor. */
  const StaggerFactor: real := 32.0

  /** The cell grid for a viewport: ceil(W / p) columns by ceil(H / p) rows,
      given as (rows, cols). */
  datatype Dims = Dims(rows: int, cols: int)

  function GridDims(width: real, height: real, pixelSize: real): (d: Dims)
    requires pixelSize > 0.0 && width >= 0.0 && height >= 0.0
    ensures d.rows >= 0 && d.cols >= 0
    ensures d.cols as real * pixelSize >= width && (d.cols - 1) as real * pixelSize < width
    ensures d.rows as real * pixelSize >= height && (d.rows - 1) as real * pixelSize < height
  {
    CeilCovers(width, pixelSize);
    CeilCovers(height, pixelSize);
    Dims(Ceil(height / pixelSize), Ceil(width / pixelSize))
  }

  /** ceil(x / p) cells of size p cover x, and one fewer do not. */
  lemma CeilCovers(x: real, p: real)
    requires p > 0.0 && x >= 0.0
    ensures Ceil(x / p) >= 0
    ensures Ceil(x / p) as real * p >= x && (Ceil(x / p) - 1) as real * p < x
  {
    var q := x / p;
    var c := Ceil(q) as real;
    assert c - 1.0 < q <= c;
    assert x == q * p;
    NonNegProduct(c - q, p);
    assert c * p - x == (c - q) * p;
    var e := q - c + 1.0;
    PositiveMul(e, p);
    var below := (Ceil(q) - 1) as real * p;
    assert below == c * p - p;
    assert x - below == e * p;
    assert below < x;
    assert c * p >= x;
    assert Ceil(x / p) as real * p >= x;
    assert (Ceil(x / p) - 1) as real * p < x;
  }

  /** `makeCells`: the old cells are removed and rows * cols new ones are
      appended, all transparent (`false` = transparent, `true` = lit). */
  method MakeCells(width: real, height: real, pixelSize: real) returns (cells: seq<bool>, dims: Dims)
    requires pixelSize > 0.0 && width >= 0.0 && height >= 0.0
    ensures dims == GridDims(width, height, pixelSize)
    ensures |cells| == dims.rows * dims.cols
    ensures forall i :: 0 <= i < |cells| ==> !cells[i]
  {
    dims := GridDims(width, height, pixelSize);
    var total := dims.rows * dims.cols;
    NonNegMul(dims.rows, dims.cols);
    cells := [];
    var i := 0;
    while i < total
      invariant 0 <= i <= total
      invariant |cells| == i
      invariant forall k :: 0 <= k < |cells| ==> !cells[k]
    {
      cells := cells + [false];
      i := i + 1;
    }
  }

  /** The stagger spacing of the cover (or reveal): the duration per cell,
      times 32. */
  function Stagger(duration: real, n: nat): (each: real)
    ensures duration >= 0.0 ==> each >= 0.0
    ensures n >= 1 ==> each * n as real == StaggerFactor * duration
    ensures n == 0 ==> each == StaggerFactor * duration
  {
    var d := Max(1.0, n as real);
    assert (duration / d) * d == duration;
    (duration / d) * StaggerFactor
  }

  /** The overlay. `cover` is the generation of the cover timeline held in
      `tlRef` while it has not completed; `frames` and `revealing` hold the
      generations whose two-frame wait or reveal tween is still pending. */
  class Overlay {
    /** Both the wrapper and the grid element are mounted. */
    const mounted: bool
    var gen: nat
    var visible: bool
    var cells: seq<bool>
    var cover: Option<nat>
    var frames: set<nat>
    var revealing: set<nat>
    /** How many times `onCovered` ran, and how many reveal-done events
      were dispatched. */
    var covered: nat
    var doneEvents: nat

    /** What holds under any sequence of events. */
    ghost predicate Wellformed()
      reads this
    {
      && (cover.Some? ==> cover.value <= gen)
      && (forall g :: g in frames ==> g <= gen)
      && (forall g :: g in revealing ==> g <= gen)
    }

    /** With `play` cancelling everything of the previous run, at most one
      run is in flight and the phases follow each other: while a cover is
      pending nothing of an earlier run can fire, and the overlay is shown
      until the reveal completes. */
    ghost predicate Valid()
      reads this
    {
      && Wellformed()
      && (cover.Some? ==> cover.value == gen && frames == {} && revealing == {})
      && frames <= {gen} && revealing <= {gen}
      && !(frames != {} && revealing != {})
      && (cover.Some? || frames != {} || revealing != {} ==> visible)
      && covered + (if cover.Some? then 1 else 0) <= gen
      && doneEvents + |frames| + |revealing| <= covered
    }

    constructor (mounted: bool)
      ensures Valid()
      ensures this.mounted == mounted && gen == 0 && !visible && cells == []
      ensures cover == None && frames == {} && revealing == {} && covered == 0 && doneEvents == 0
    {
      this.mounted := mounted;
      gen, visible, cells := 0, false, [];
      cover, frames, revealing := None, {}, {};
      covered, doneEvents := 0, 0;
    }

    /** `play`: without the wrapper and grid nothing happens. Otherwise the
      previous run is cancelled (its cover timeline, and with it its
      pending frame wait and reveal), a fresh transparent grid is built for
      the viewport, the overlay is shown and a new cover starts. */
    method Play(width: real, height: real, pixelSize: real)
      requires Valid() && pixelSize > 0.0 && width >= 0.0 && height >= 0.0
      modifies this
      ensures Valid()
      ensures !mounted ==>
        (gen == old(gen) && visible == old(visible) && cells == old(cells)
         && cover == old(cover) && frames == old(frames) && revealing == old(revealing))
      ensures mounted ==> gen == old(gen) + 1 && cover == Some(gen) && frames == {} && revealing == {} && visible
      ensures mounted ==>
        (|cells| == GridDims(width, height, pixelSize).rows * GridDims(width, height, pixelSize).cols
         && forall i :: 0 <= i < |cells| ==> !cells[i])
      ensures covered == old(covered) && doneEvents == old(doneEvents)
    {
      if !mounted {
        return;
      }
      cover, frames, revealing := None, {}, {};
      var newCells, dims := MakeCells(width, height, pixelSize);
      cells := newCells;
      visible := true;
      gen := gen + 1;
      cover := Some(gen);
    }

    /** `play` as written: the previous cover timeline is killed, but the
      reveal tween and the two-frame wait it may already have scheduled
      are not. */
    method PlayAsWritten(width: real, height: real, pixelSize: real)
      requires Wellformed() && pixelSize > 0.0 && width >= 0.0 && height >= 0.0
      modifies this
      ensures Wellformed()
      ensures mounted ==>
        (gen == old(gen) + 1 && cover == Some(gen) && visible
         && frames == old(frames) && revealing == old(revealing))
      ensures !mounted ==> gen == old(gen) && cover == old(cover) && frames == old(frames) && revealing == old(revealing)
      ensures covered == old(covered) && doneEvents == old(doneEvents)
    {
      if !mounted {
        return;
      }
      cover := None;
      var newCells, dims := MakeCells(width, height, pixelSize);
      cells := newCells;
      visible := true;
      gen := gen + 1;
      cover := Some(gen);
    }

    /** The cover lights cell i (one staggered step of the cover tween). */
    method CoverStep(i: nat)
      requires Wellformed() && cover.Some? && i < |cells|
      modifies this`cells
      ensures Wellformed()
      ensures cells == old(cells)[i := true]
    {
      cells := cells[i := true];
    }

    /** The cover completes: every cell is lit, `onCovered` runs (an
      exception it throws is swallowed, so `throws` changes nothing) and
      the two-frame wait starts. */
    method CoverComplete(throws: bool)
      requires Wellformed() && cover.Some?
      modifies this
      ensures Wellformed()
      ensures Valid() <== old(Valid())
      ensures cover == None && frames == old(frames) + {old(cover.value)}
      ensures covered == old(covered) + 1 && |cells| == |old(cells)| && forall i :: 0 <= i < |cells| ==> cells[i]
      ensures gen == old(gen) && visible == old(visible) && revealing == old(revealing) && doneEvents == old(doneEvents)
    {
      var g := cover.value;
      cells := seq(|cells|, _ => true);
      covered := covered + 1;
      cover := None;
      frames := frames + {g};
    }

    /** Two animation frames later: the overlay is (still) shown and the
      reveal tween of run g starts. */
    method Frames(g: nat)
      requires Wellformed() && g in frames
      modifies this
      ensures Wellformed()
      ensures Valid() <== old(Valid())
      ensures frames == old(frames) - {g} && revealing == old(revealing) + {g} && visible
      ensures gen == old(gen) && cover == old(cover) && cells == old(cells)
      ensures covered == old(covered) && doneEvents == old(doneEvents)
    {
      frames := frames - {g};
      visible := true;
      revealing := revealing + {g};
    }

    /** The reveal of run g darkens cell i of that run's grid. Only the
      latest run's cells are still in the overlay: a stale reveal animates
      cells that a later `play` has already replaced, so the shown grid
      does not change. */
    method RevealStep(g: nat, i: nat)
      requires Wellformed() && g in revealing && (g == gen ==> i < |cells|)
      modifies this`cells
      ensures Wellformed()
      ensures g == gen ==> cells == old(cells)[i := false]
      ensures g != gen ==> cells == old(cells)
    {
      if g == gen {
        cells := cells[i := false];
      }
    }

    /** The reveal of run g completes: the overlay hides, the grid is
      emptied and the reveal-done event is dispatched. */
    method RevealComplete(g: nat)
      requires Wellformed() && g in revealing
      modifies this
      ensures Wellformed()
      ensures Valid() <== old(Valid())
      ensures revealing == old(revealing) - {g} && !visible && cells == [] && doneEvents == old(doneEvents) + 1
      ensures gen == old(gen) && cover == old(cover) && frames == old(frames) && covered == old(covered)
    {
      revealing := revealing - {g};
      visible := false;
      cells := [];
      doneEvents := doneEvents + 1;
    }
  }

  /** In the corrected overlay a pending cover is never interrupted: the
      overlay is shown and no reveal can complete until the cover has. */
  lemma CoverIsNeverInterrupted(o: Overlay)
    requires o.Valid() && o.cover.Some?
    ensures o.visible && o.revealing == {} && o.frames == {}
  {
  }

  /** As written, a second `play` during the first run's reveal leaves that
      reveal running: its completion hides the overlay and empties the
      grid while the second cover is still in progress. */
  method StaleRevealScenario() returns (hiddenDuringCover: bool, emptiedDuringCover: bool)
    ensures hiddenDuringCover && emptiedDuringCover
  {
    var o := new Overlay(true);
    o.PlayAsWritten(800.0, 600.0, DefaultPixelSize);
    o.CoverComplete(false);
    o.Frames(1);
    o.PlayAsWritten(800.0, 600.0, DefaultPixelSize);
    o.RevealComplete(1);
    hiddenDuringCover := o.cover == Some(2) && !o.visible;
    emptiedDuringCover := o.cover == Some(2) && o.cells == [];
  }

  /** The same events with the corrected `play`: the first reveal is
      cancelled and cannot complete, and the second cover stays shown. */
  method CorrectedScenario() returns (revealCancelled: bool, shownDuringCover: bool)
    ensures revealCancelled && shownDuringCover
  {
    var o := new Overlay(true);
    o.Play(800.0, 600.0, DefaultPixelSize);
    o.CoverComplete(false);
    o.Frames(1);
    o.Play(800.0, 600.0, DefaultPixelSize);
    revealCancelled := 1 !in o.revealing;
    shownDuringCover := o.cover == Some(2) && o.visible;
  }
}
