/** The reveal gate: renders nothing until the page-reveal event arrives
    or a fallback timeout expires, whichever comes first, and its children
    from then on. A disabled gate is ready from the start and installs
    nothing. */
module RevealGate {
  /** What the gate renders. */
  datatype View = Nothing | Children

  class Gate {
    const enabled: bool
    var ready: bool
    /** The once-only event listener is installed. */
    var listening: bool
    /** The fallback timeout is pending. */
    var timerSet: bool

    /** Listener and timeout live and die together, and only while the
      gate is still closed; a disabled gate is open. */
    ghost predicate Valid()
      reads this
    {
      listening == timerSet &&
      (listening ==> !ready) &&
      (!enabled ==> ready && !listening)
    }

    /** Mount: `ready` starts as `!enabled`; only an enabled gate installs
      the listener and the timeout. */
    constructor (enabled: bool)
      ensures Valid()
      ensures this.enabled == enabled && ready == !enabled
      ensures listening == enabled && timerSet == enabled
    {
      this.enabled := enabled;
      ready := !enabled;
      listening, timerSet := enabled, enabled;
    }

    function Render(): (v: View)
      reads this
      ensures v == Children <==> ready
    {
      if ready then Children else Nothing
    }

    /** The event arrives: the timeout is cleared, the gate opens and the
      listener is gone. */
    method Event()
      requires Valid()
      modifies this`ready, this`listening, this`timerSet
      ensures Valid()
      ensures old(listening) ==> ready && !listening && !timerSet
      ensures !old(listening) ==> ready == old(ready) && !listening && !timerSet
    {
      if listening {
        timerSet := false;
        ready := true;
        listening := false;
      }
    }

    /** The fallback timeout expires: the gate opens and the listener is
      removed. */
    method Timeout()
      requires Valid()
      modifies this`ready, this`listening, this`timerSet
      ensures Valid()
      ensures old(timerSet) ==> ready && !listening && !timerSet
      ensures !old(timerSet) ==> ready == old(ready) && !listening && !timerSet
    {
      if timerSet {
        ready := true;
        listening, timerSet := false, false;
      }
    }

    /** Unmount: both are removed; the gate stays as it was. */
    method Unmount()
      requires Valid()
      modifies this`listening, this`timerSet
      ensures Valid()
      ensures !listening && !timerSet
    {
      listening, timerSet := false, false;
    }
  }

  /** The first of event and timeout opens the gate; the second finds
      nothing left to do; whatever happens, it never closes again. */
  method FirstWins(eventFirst: bool) returns (closedBefore: bool, openAfterFirst: bool, openAfterBoth: bool)
    ensures closedBefore && openAfterFirst && openAfterBoth
  {
    var g := new Gate(true);
    closedBefore := g.Render() == Nothing;
    if eventFirst {
      g.Event();
    } else {
      g.Timeout();
    }
    openAfterFirst := g.Render() == Children;
    if eventFirst {
      g.Timeout();
    } else {
      g.Event();
    }
    g.Unmount();
    openAfterBoth := g.Render() == Children;
  }

  /** A gate unmounted before either arrives stays closed. */
  method UnmountedEarly() returns (isOpen: bool)
    ensures !isOpen
  {
    var g := new Gate(true);
    g.Unmount();
    g.Event();
    g.Timeout();
    isOpen := g.ready;
  }
}
