/** The route curtain: a full-screen cover shown (and page scrolling
    locked) when a route is being left, and faded out again when the next
    route is ready, scrolling being unlocked only once that fade completes.
    A capturing pointerdown listener announces leaving early for plain
    left presses on internal links. GSAP tweens become a record of the
    current tween: killing one replaces it, and only the current one can
    complete. */
module RouteCurtain {
  import opened Common
  import TransitionLink

  const ShowSeconds: real := 0.16
  const HideSeconds: real := 0.18

  /** An internal href: non-empty, and neither `http…` nor `mailto:…`. */
  predicate Internal(href: string)
  {
    href != "" && !StartsWith(href, "http") && !StartsWith(href, "mailto:")
  }

  /** Whether a pointerdown announces leaving: `anchorHref` is the href of
      the closest `a[href]` around the target, if there is one. */
  function AnnouncesLeaving(anchorHref: Option<string>, b: Buttons): (leaving: bool)
    ensures leaving ==> anchorHref.Some?
    ensures leaving <==> (anchorHref.Some? && anchorHref.value != "" &&
      !StartsWith(anchorHref.value, "http") && !StartsWith(anchorHref.value, "mailto:") &&
      b.button == 0 && !b.meta && !b.ctrl && !b.shift && !b.alt)
  {
    match anchorHref
    case None => false
    case Some(href) => Internal(href) && PlainPrimary(b)
  }

  /** External and mail links never announce leaving, whatever the
      press. */
  lemma ExternalNeverLeaves(rest: string, b: Buttons)
    ensures !AnnouncesLeaving(Some("http" + rest), b)
    ensures !AnnouncesLeaving(Some("mailto:" + rest), b)
  {
    assert ("http" + rest)[..4] == "http";
    assert ("mailto:" + rest)[..7] == "mailto:";
  }

  /** A press that the transition link takes over (same anchor, plain left
      press) also raises the curtain when the href is internal; but a
      new-tab link raises it while the link leaves the click alone. */
  lemma LinkAndCurtainAgree(href: string, b: Buttons, target: Option<string>)
    requires Internal(href) && PlainPrimary(b)
    ensures AnnouncesLeaving(Some(href), b)
    ensures target != Some("_blank") ==> TransitionLink.OnClick(TransitionLink.Click(false, b), target, href).prevented
    ensures target == Some("_blank") ==> !TransitionLink.OnClick(TransitionLink.Click(false, b), target, href).prevented
  {
  }

  /** The curtain's current tween. */
  datatype Tween = ShowTween | HideTween

  class Curtain {
    /** The opacity the curtain is heading to (set to 0 at mount). */
    var alphaTarget: real
    var tween: Option<Tween>
    /** `documentElement.style.overscrollBehavior` and `body.style.overflow`. */
    var overscroll: string
    var overflow: string
    var listening: bool

    predicate Locked()
      reads this
    {
      overscroll == "none" && overflow == "hidden"
    }

    /** While shown, scrolling is locked; before any tween the styles are
      untouched; the opacity target follows the tween. */
    ghost predicate Valid()
      reads this
    {
      (tween == Some(ShowTween) ==> Locked() && alphaTarget == 1.0) &&
      (tween == Some(HideTween) ==> alphaTarget == 0.0) &&
      (tween.None? ==> alphaTarget == 0.0 && overscroll == "" && overflow == "")
    }

    /** Mount: hidden at once, listeners installed. */
    constructor ()
      ensures Valid() && listening
      ensures alphaTarget == 0.0 && tween.None? && overscroll == "" && overflow == ""
    {
      alphaTarget, tween := 0.0, None;
      overscroll, overflow := "", "";
      listening := true;
    }

    /** `show`: the running tween is killed, a fade-in starts and scrolling
      is locked at once. */
    method Show()
      requires Valid()
      modifies this`alphaTarget, this`tween, this`overscroll, this`overflow
      ensures Valid()
      ensures tween == Some(ShowTween) && alphaTarget == 1.0 && Locked()
    {
      tween := Some(ShowTween);
      alphaTarget := 1.0;
      overscroll, overflow := "none", "hidden";
    }

    /** `hide`: the running tween is killed and a fade-out starts; the
      styles stay as they are until it completes. */
    method Hide()
      requires Valid()
      modifies this`alphaTarget, this`tween
      ensures Valid()
      ensures tween == Some(HideTween) && alphaTarget == 0.0
    {
      tween := Some(HideTween);
      alphaTarget := 0.0;
    }

    /** The current tween completes: a fade-out restores both styles, a
      fade-in changes nothing more. */
    method Complete()
      requires Valid()
      modifies this`overscroll, this`overflow
      ensures Valid()
      ensures tween == Some(HideTween) ==> overscroll == "" && overflow == ""
      ensures tween != Some(HideTween) ==> overscroll == old(overscroll) && overflow == old(overflow)
    {
      if tween == Some(HideTween) {
        overscroll, overflow := "", "";
      }
    }

    /** `route:leaving` */
    method Leaving()
      requires Valid()
      modifies this`alphaTarget, this`tween, this`overscroll, this`overflow
      ensures Valid()
      ensures listening ==> tween == Some(ShowTween) && Locked()
      ensures !listening ==> (tween == old(tween) && alphaTarget == old(alphaTarget) &&
        overscroll == old(overscroll) && overflow == old(overflow))
    {
      if listening {
        Show();
      }
    }

    /** `route:ready` */
    method Ready()
      requires Valid()
      modifies this`alphaTarget, this`tween
      ensures Valid()
      ensures listening ==> tween == Some(HideTween)
      ensures !listening ==> tween == old(tween) && alphaTarget == old(alphaTarget)
    {
      if listening {
        Hide();
      }
    }

    /** A pointerdown anywhere in the document (capturing): a plain left
      press on an internal link announces leaving, which shows the
      curtain. */
    method PointerDown(anchorHref: Option<string>, b: Buttons)
      requires Valid()
      modifies this`alphaTarget, this`tween, this`overscroll, this`overflow
      ensures Valid()
      ensures listening && AnnouncesLeaving(anchorHref, b) ==> tween == Some(ShowTween) && Locked()
      ensures !(listening && AnnouncesLeaving(anchorHref, b)) ==> (tween == old(tween) &&
        alphaTarget == old(alphaTarget) && overscroll == old(overscroll) && overflow == old(overflow))
    {
      if !listening {
        return;
      }
      if AnnouncesLeaving(anchorHref, b) {
        Leaving();
      }
    }

    /** Unmount: all three listeners are removed. */
    method Unmount()
      modifies this`listening
      ensures !listening
    {
      listening := false;
    }
  }

  /** Leaving again while the curtain is fading out kills the fade before
      it completes: scrolling stays locked. Letting the fade complete
      unlocks it. */
  method LeaveDuringFade() returns (lockedAfterInterrupt: bool, lockedAfterFade: bool)
    ensures lockedAfterInterrupt && !lockedAfterFade
  {
    var c := new Curtain();
    c.Leaving();
    c.Ready();
    c.Leaving();
    c.Complete();
    lockedAfterInterrupt := c.Locked();
    c.Ready();
    c.Complete();
    lockedAfterFade := c.Locked();
  }
}
