/** The Theta work page's desktop gallery: a horizontal rail scrolled by
    the wheel (vertical wheel turned sideways), by dragging, by the arrow
    keys and by a light inertia after release, and the panels it shows.
    The browser keeps `scrollLeft` within [0, scrollWidth - clientWidth];
    the model does the same. */
module ThetaRail {
  import opened Common
  import InfiniteGrid

  const WheelGain: real := 0.9
  const InertiaDamping: real := 0.92
  const InertiaFloor: real := 0.1
  const KeyStep: real := 80.0
  const Widths: seq<string> := ["80vw", "60vw", "72vw", "66vw", "78vw", "62vw"]

  /* ---------------- galleries ---------------- */

  /** `images.slice(1)`: every image but the hero. */
  function WithoutHero<T>(images: seq<T>): (r: seq<T>)
    ensures |r| == if |images| == 0 then 0 else |images| - 1
    ensures forall k :: 0 <= k < |r| ==> r[k] == images[k + 1]
  {
    if |images| == 0 then [] else images[1..]
  }

  /* ---------------- panels ---------------- */

  /** The panel's width cycles through the six widths. */
  function PanelWidth(index: nat): (w: string)
    ensures w in Widths
  {
    Widths[index % 6]
  }

  /** Panels six apart have the same width. */
  lemma PanelWidthPeriodic(index: nat)
    ensures PanelWidth(index + 6) == PanelWidth(index)
  {
    assert (index + 6) % 6 == index % 6;
  }

  /** `String(n)` for a natural number. */
  function Digits(n: nat): (s: string)
    ensures 1 <= |s|
    ensures forall k :: 0 <= k < |s| ==> '0' <= s[k] <= '9'
    ensures n < 10 <==> |s| == 1
    decreases n
  {
    if n < 10 then [DigitChar(n)] else Digits(n / 10) + [DigitChar(n % 10)]
  }

  function DigitChar(d: nat): (c: char)
    requires d < 10
    ensures '0' <= c <= '9' && c as int - '0' as int == d
  {
    ('0' as int + d) as char
  }

  /** The decimal value of a string of digits. */
  function Value(s: string): nat
    requires forall k :: 0 <= k < |s| ==> '0' <= s[k] <= '9'
  {
    if |s| == 0 then 0 else Value(s[..|s| - 1]) * 10 + (s[|s| - 1] as int - '0' as int)
  }

  /** `Digits` writes the number: reading it back gives it. */
  lemma {:induction false} DigitsValue(n: nat)
    ensures Value(Digits(n)) == n
    decreases n
  {
    if n >= 10 {
      DigitsValue(n / 10);
      var s := Digits(n);
      assert s[..|s| - 1] == Digits(n / 10);
    }
  }

  /** `padStart(2, "0")` */
  function PadTwo(s: string): (r: string)
    ensures |r| == if |s| >= 2 then |s| else 2
    ensures |s| >= 2 ==> r == s
    ensures |s| < 2 ==> r[2 - |s|..] == s && forall k :: 0 <= k < 2 - |s| ==> r[k] == '0'
  {
    if |s| >= 2 then s else seq(2 - |s|, _ => '0') + s
  }

  /** The panel's label number: index + 1, at least two digits. */
  function Label(index: nat): (text: string)
    ensures |text| >= 2
  {
    PadTwo(Digits(index + 1))
  }

  /** The label reads back as the panel's one-based number, which is also
      the image's position in the full image list (the hero being 0). */
  lemma LabelValue(index: nat)
    ensures var l := Label(index);
      (forall k :: 0 <= k < |l| ==> '0' <= l[k] <= '9') && Value(l) == index + 1
  {
    var d := Digits(index + 1);
    DigitsValue(index + 1);
    if |d| < 2 {
      var l := Label(index);
      assert l == ['0'] + d;
      assert l[..|l| - 1] == ['0'];
      assert Value(['0']) == Value([]) * 10 + 0;
    }
  }

  /* ---------------- the rail ---------------- */

  /** `e.clientX ?? e.touches?.[0]?.clientX ?? 0` */
  function PointerX(clientX: Option<real>, touchX: Option<real>): (x: real)
    ensures clientX.Some? ==> x == clientX.value
    ensures clientX.None? && touchX.Some? ==> x == touchX.value
    ensures clientX.None? && touchX.None? ==> x == 0.0
  {
    if clientX.Some? then clientX.value else if touchX.Some? then touchX.value else 0.0
  }

  /** The rail element's scroll state and the drag/inertia refs. */
  class Rail {
    const clientWidth: real
    const scrollWidth: real
    var scrollLeft: real
    var vel: real
    var dragging: bool
    var lastX: real

    /** The furthest the rail scrolls. */
    function MaxScroll(): real
      reads this
    {
      Max(0.0, scrollWidth - clientWidth)
    }

    ghost predicate Valid()
      reads this
    {
      0.0 <= scrollLeft <= MaxScroll()
    }

    constructor (clientWidth: real, scrollWidth: real)
      ensures Valid()
      ensures this.clientWidth == clientWidth && this.scrollWidth == scrollWidth
      ensures scrollLeft == 0.0 && vel == 0.0 && !dragging && lastX == 0.0
    {
      this.clientWidth, this.scrollWidth := clientWidth, scrollWidth;
      scrollLeft, vel, dragging, lastX := 0.0, 0.0, false, 0.0;
    }

    /** Assigning `scrollLeft`: the browser keeps it in range. */
    method ScrollTo(x: real)
      modifies this`scrollLeft
      ensures Valid()
      ensures scrollLeft == Clamp(x, 0.0, MaxScroll())
    {
      scrollLeft := Clamp(x, 0.0, MaxScroll());
    }

    predicate AtStart()
      reads this
    {
      scrollLeft <= 0.0
    }

    predicate AtEnd()
      reads this
    {
      scrollLeft + clientWidth >= scrollWidth - 1.0
    }

    /** The wheel: a mostly vertical wheel scrolls the rail by 0.9 of it and
      sets the inertia to that; a mostly horizontal one, scrolled natively,
      only sets the inertia, and only away from both ends. */
    method Wheel(deltaX: Option<real>, deltaY: Option<real>)
      requires Valid()
      modifies this`scrollLeft, this`vel
      ensures Valid()
      ensures var dx, dy := InfiniteGrid.WheelDelta(deltaX), InfiniteGrid.WheelDelta(deltaY);
        if Abs(dy) > Abs(dx) then
          scrollLeft == Clamp(old(scrollLeft) + dy * WheelGain, 0.0, MaxScroll()) && vel == dy * WheelGain
        else
          scrollLeft == old(scrollLeft) && vel == (if !old(AtStart()) && !old(AtEnd()) then dx else old(vel))
    {
      var dx := InfiniteGrid.WheelDelta(deltaX);
      var dy := InfiniteGrid.WheelDelta(deltaY);
      var atStart := AtStart();
      var atEnd := AtEnd();
      if Abs(dy) > Abs(dx) {
        ScrollTo(scrollLeft + dy * WheelGain);
        vel := dy * WheelGain;
      } else if !atStart && !atEnd {
        vel := dx;
      }
    }

    /** Pointer (or touch) down: dragging starts from the pointer. */
    method Down(x: real)
      modifies this`dragging, this`lastX
      ensures dragging && lastX == x
    {
      dragging := true;
      lastX := x;
    }

    /** A move while dragging scrolls the rail against the pointer and sets
      the inertia to match; otherwise it is ignored. */
    method Move(x: real)
      requires Valid()
      modifies this`scrollLeft, this`vel, this`lastX
      ensures Valid()
      ensures !dragging ==> scrollLeft == old(scrollLeft) && vel == old(vel) && lastX == old(lastX)
      ensures dragging ==>
        var dx := x - old(lastX);
        lastX == x && vel == -dx && scrollLeft == Clamp(old(scrollLeft) - dx, 0.0, MaxScroll())
    {
      if !dragging {
        return;
      }
      var dx := x - lastX;
      lastX := x;
      ScrollTo(scrollLeft - dx);
      vel := -dx;
    }

    method Up()
      modifies this`dragging
      ensures !dragging
    {
      dragging := false;
    }

    /** One animation frame: when released and still moving faster than
      0.1, the rail coasts by the velocity, which then decays by 0.92. */
    method Tick()
      requires Valid()
      modifies this`scrollLeft, this`vel
      ensures Valid()
      ensures dragging || Abs(old(vel)) <= InertiaFloor ==> scrollLeft == old(scrollLeft) && vel == old(vel)
      ensures !dragging && Abs(old(vel)) > InertiaFloor ==>
        scrollLeft == Clamp(old(scrollLeft) + old(vel), 0.0, MaxScroll()) && vel == old(vel) * InertiaDamping
      ensures Abs(vel) <= Abs(old(vel))
    {
      if !dragging && Abs(vel) > InertiaFloor {
        ScrollTo(scrollLeft + vel);
        vel := vel * InertiaDamping;
      }
    }

    /** The arrow keys scroll by 80 either way. */
    method Key(key: string)
      requires Valid()
      modifies this`scrollLeft
      ensures Valid()
      ensures key == "ArrowRight" ==> scrollLeft == Clamp(old(scrollLeft) + KeyStep, 0.0, MaxScroll())
      ensures key == "ArrowLeft" ==> scrollLeft == Clamp(old(scrollLeft) - KeyStep, 0.0, MaxScroll())
      ensures key != "ArrowRight" && key != "ArrowLeft" ==> scrollLeft == old(scrollLeft)
    {
      if key == "ArrowRight" {
        ScrollTo(scrollLeft + KeyStep);
      }
      if key == "ArrowLeft" {
        ScrollTo(scrollLeft - KeyStep);
      }
    }
  }

  /** Released inertia dies out: after n coasting frames the velocity is
      0.92^n of what it was. */
  function Decayed(v: real, n: nat): real
  {
    if n == 0 then v else Decayed(v, n - 1) * InertiaDamping
  }

  /** Each coasting frame shrinks the speed, so coasting ends once it is
      at most 0.1. */
  lemma {:induction false} DecayedShrinks(v: real, n: nat)
    ensures Abs(Decayed(v, n)) <= Abs(v)
    ensures n > 0 && v != 0.0 ==> Abs(Decayed(v, n)) < Abs(v)
  {
    if n > 0 {
      DecayedShrinks(v, n - 1);
      var p := Decayed(v, n - 1);
      assert Abs(p * InertiaDamping) == Abs(p) * InertiaDamping;
    }
  }
}
