/** The global navigation bar: which button is active for a path, the
    ASCII "burst" that scrambles a button label while hovered, the timers
    that run and end a burst, and the one-time bottom reveal of the five
    buttons on the home page. GSAP tweens and React rendering become state
    fields; timers become explicit events. */
module Navbar {
  import opened Common

  /** The burst glyphs; the last one is a smiley followed by the text
      presentation selector, two units long. */
  const Ascii: seq<string> := ["\U{2727}", "\U{25A0}", "o", "\U{2218}", "\U{2200}", "M", "1", ">", "N", "\U{263A}\U{FE0E}"]
  const BurstChance: real := 0.45
  const DefaultBurstMs: real := 400.0
  const FallbackMs: real := 2200.0

  /* ---------------- active button ---------------- */

  predicate IsHome(path: string)
  {
    path == "/"
  }

  predicate IsWork(path: string)
  {
    StartsWith(path, "/work")
  }

  predicate IsAbout(path: string)
  {
    StartsWith(path, "/about")
  }

  /** At most one button is active, and every path below /work or /about
      activates its section's button. */
  lemma ActiveButtons(path: string, rest: string)
    ensures !(IsHome(path) && IsWork(path)) && !(IsHome(path) && IsAbout(path)) && !(IsWork(path) && IsAbout(path))
    ensures IsWork("/work" + rest) && !IsHome("/work" + rest)
    ensures IsAbout("/about" + rest) && !IsHome("/about" + rest)
  {
    assert ("/work" + rest)[..5] == "/work";
    assert ("/about" + rest)[..6] == "/about";
    if IsWork(path) {
      assert path[..5][1] == path[1] == 'w';
    }
    if IsAbout(path) {
      assert path[..6][1] == path[1] == 'a';
    }
  }

  /* ---------------- the burst ---------------- */

  /** The random numbers a burst draws for one character: whether to swap
      it, and which glyph (the truncated `random * 10`). */
  datatype Pick = Pick(roll: real, glyph: nat)

  predicate ValidPicks(picks: seq<Pick>)
  {
    forall j :: 0 <= j < |picks| ==> 0.0 <= picks[j].roll < 1.0 && picks[j].glyph < |Ascii|
  }

  /** A label split into one piece per character. */
  function Pieces(t: string): (p: seq<string>)
    ensures |p| == |t| && forall j :: 0 <= j < |t| ==> p[j] == [t[j]]
  {
    seq(|t|, j requires 0 <= j < |t| => [t[j]])
  }

  /** Each piece is the character at its position or a burst glyph. */
  predicate IsBurstOf(p: seq<string>, t: string)
  {
    |p| == |t| && forall j :: 0 <= j < |p| ==> p[j] == [t[j]] || p[j] in Ascii
  }

  /** `burst`: each character is swapped for a glyph with chance 0.45. */
  function Burst(t: string, picks: seq<Pick>): (p: seq<string>)
    requires |picks| == |t| && ValidPicks(picks)
    ensures IsBurstOf(p, t)
    ensures forall j :: 0 <= j < |t| ==> (p[j] == [t[j]] <== picks[j].roll >= BurstChance)
    ensures forall j :: 0 <= j < |t| ==> (picks[j].roll < BurstChance ==> p[j] == Ascii[picks[j].glyph])
  {
    seq(|t|, j requires 0 <= j < |t| => if picks[j].roll < BurstChance then Ascii[picks[j].glyph] else [t[j]])
  }

  /** The shown label: the pieces joined. */
  function Flatten(p: seq<string>): string
  {
    if |p| == 0 then "" else Flatten(p[..|p| - 1]) + p[|p| - 1]
  }

  /** A burst label is never shorter than the original and at most twice as
      long (the smiley glyph takes two units). */
  lemma {:induction false} BurstLength(p: seq<string>, t: string)
    requires IsBurstOf(p, t)
    ensures |t| <= |Flatten(p)| <= 2 * |t|
  {
    if |p| > 0 {
      var n := |p| - 1;
      BurstLength(p[..n], t[..n]);
      assert p[n] == [t[n]] || p[n] in Ascii;
    }
  }

  /** Unburst pieces give the label back. */
  lemma {:induction false} FlattenPieces(t: string)
    ensures Flatten(Pieces(t)) == t
  {
    if |t| > 0 {
      var n := |t| - 1;
      assert Pieces(t)[..n] == Pieces(t[..n]);
      FlattenPieces(t[..n]);
      assert t == t[..n] + [t[n]];
    }
  }

  /* ---------------- labels and their timers ---------------- */

  datatype Key = Manamona | Works | Who

  function Original(k: Key): string
  {
    match k
    case Manamona => "[MANAMONA]"
    case Works => "[WORKS]"
    case Who => "[WHO]"
  }

  /** The labels (as pieces) and, per key, whether its burst interval and
      its stop timeout are set, with the timeout's due time. */
  class Labels {
    var shown: map<Key, seq<string>>
    var intervals: set<Key>
    var timeouts: map<Key, real>

    /** Every label is its original or a burst of it, and a key's interval
      and timeout are set and cleared together. */
    ghost predicate Valid()
      reads this
    {
      (forall k: Key :: k in shown && IsBurstOf(shown[k], Original(k))) &&
      intervals == timeouts.Keys
    }

    function Text(k: Key): string
      reads this
    {
      if k in shown then Flatten(shown[k]) else ""
    }

    constructor ()
      ensures Valid()
      ensures forall k: Key :: k in shown && shown[k] == Pieces(Original(k))
      ensures intervals == {} && timeouts == map[]
    {
      shown := map[Manamona := Pieces(Original(Manamona)), Works := Pieces(Original(Works)),
        Who := Pieces(Original(Who))];
      intervals, timeouts := {}, map[];
      new;
      forall k: Key
        ensures k in shown && IsBurstOf(shown[k], Original(k))
      {
        assert k == Manamona || k == Works || k == Who;
      }
    }

    /** `stop(k)`: both timers of k are cleared and its label restored. */
    method Stop(k: Key)
      requires Valid()
      modifies this
      ensures Valid()
      ensures shown == old(shown)[k := Pieces(Original(k))]
      ensures intervals == old(intervals) - {k} && timeouts == old(timeouts) - {k}
    {
      intervals := intervals - {k};
      timeouts := timeouts - {k};
      shown := shown[k := Pieces(Original(k))];
    }

    /** `start(k, d)`: stop k, then set its burst interval and a timeout
      that stops it d ms from now. */
    method Start(k: Key, now: real, d: real)
      requires Valid()
      modifies this
      ensures Valid()
      ensures shown == old(shown)[k := Pieces(Original(k))]
      ensures intervals == old(intervals) + {k} && timeouts == old(timeouts)[k := now + d]
    {
      Stop(k);
      intervals := intervals + {k};
      timeouts := timeouts[k := now + d];
    }

    /** The burst interval of k fires: its label is burst anew. */
    method BurstTick(k: Key, picks: seq<Pick>)
      requires Valid() && k in intervals
      requires |picks| == |Original(k)| && ValidPicks(picks)
      modifies this`shown
      ensures Valid()
      ensures shown == old(shown)[k := Burst(Original(k), picks)]
    {
      shown := shown[k := Burst(Original(k), picks)];
    }

    /** The stop timeout of k fires. */
    method StopTimeout(k: Key, now: real)
      requires Valid() && k in timeouts && now >= timeouts[k]
      modifies this
      ensures Valid()
      ensures shown == old(shown)[k := Pieces(Original(k))]
      ensures k !in intervals && k !in timeouts
    {
      Stop(k);
    }

    /** Unmount: every timer is cleared; the labels stay as they are. */
    method Unmount()
      requires Valid()
      modifies this`intervals, this`timeouts
      ensures Valid()
      ensures intervals == {} && timeouts == map[]
    {
      intervals, timeouts := {}, map[];
    }
  }

  /** Hovering in and out leaves the label as it was at mount and no timer
      running. */
  method HoverInAndOut(picks: seq<Pick>) returns (text: string, timers: nat)
    requires |picks| == |Original(Works)| && ValidPicks(picks)
    ensures text == "[WORKS]" && timers == 0
  {
    var l := new Labels();
    l.Start(Works, 0.0, DefaultBurstMs);
    l.BurstTick(Works, picks);
    l.Stop(Works);
    FlattenPieces(Original(Works));
    text := l.Text(Works);
    timers := |l.intervals|;
  }

  /* ---------------- the home reveal ---------------- */

  /** The bottom reveal: on the home page the five buttons start hidden
      and a timeline brings them in, on the `mm:reveal:nav` event or after
      a 2.2 s fallback; elsewhere they are shown at once. */
  class Reveal {
    var home: bool
    /** The buttons stand at their final place, fully opaque. */
    var shown: bool
    var played: bool
    var running: bool
    var listening: bool
    var fallbackDue: Option<real>
    /** How many reveal timelines have been started. */
    var starts: nat

    ghost predicate Valid()
      reads this
    {
      (played ==> home && shown && !running) &&
      (!home ==> shown && !played && !running && !listening && fallbackDue.None?)
    }

    /** The two effects for the path's home-ness at time `now`. */
    method Enter(isHome: bool, now: real)
      modifies this`home, this`shown, this`played, this`listening, this`fallbackDue
      ensures home == isHome && played == (isHome && old(played))
      ensures !isHome ==> shown && !listening && fallbackDue.None?
      ensures isHome ==> !shown && listening && fallbackDue == Some(now + FallbackMs)
    {
      home := isHome;
      if !isHome {
        shown, played := true, false;
        listening, fallbackDue := false, None;
      } else {
        shown := false;
        listening, fallbackDue := true, Some(now + FallbackMs);
      }
    }

    constructor (isHome: bool, now: real)
      ensures Valid()
      ensures home == isHome && !played && !running && starts == 0
      ensures isHome ==> !shown && listening && fallbackDue == Some(now + FallbackMs)
      ensures !isHome ==> shown && !listening && fallbackDue.None?
    {
      home, shown, played, running, listening, fallbackDue, starts := false, true, false, false, false, None, 0;
      new;
      Enter(isHome, now);
    }

    /** The path changed. When home-ness changed, the previous effect is
      cleaned up (its listener, its fallback, a running timeline) and the
      effects run again; off the home page the played flag is reset. */
    method Route(isHome: bool, now: real)
      requires Valid()
      modifies this`home, this`shown, this`played, this`listening, this`fallbackDue, this`running
      ensures Valid()
      ensures isHome == old(home) ==> (home == old(home) && shown == old(shown) && played == old(played) &&
        running == old(running) && listening == old(listening) && fallbackDue == old(fallbackDue))
      ensures isHome != old(home) ==> home == isHome && !played && !running
      ensures isHome != old(home) && isHome ==> !shown && listening && fallbackDue == Some(now + FallbackMs)
      ensures isHome != old(home) && !isHome ==> shown && !listening && fallbackDue.None?
    {
      if isHome == home {
        return;
      }
      running := false;
      Enter(isHome, now);
    }

    /** `play`: nothing once played, nothing unless all five button
      elements exist; otherwise a fresh timeline replaces any running
      one. */
    method Play(allRefs: bool)
      requires Valid() && home
      modifies this`running, this`starts
      ensures Valid()
      ensures old(played) || !allRefs ==> running == old(running) && starts == old(starts)
      ensures !old(played) && allRefs ==> running && starts == old(starts) + 1
    {
      if played || !allRefs {
        return;
      }
      running := true;
      starts := starts + 1;
    }

    /** The `mm:reveal:nav` event. */
    method RevealEvent(allRefs: bool)
      requires Valid()
      modifies this`running, this`starts
      ensures Valid()
      ensures !listening || played || !allRefs ==> running == old(running) && starts == old(starts)
      ensures listening && !played && allRefs ==> running && starts == old(starts) + 1
    {
      if listening && home {
        Play(allRefs);
      }
    }

    /** The fallback timeout fires. */
    method Fallback(now: real, allRefs: bool)
      requires Valid() && fallbackDue.Some? && now >= fallbackDue.value
      modifies this`fallbackDue, this`running, this`starts
      ensures Valid() && fallbackDue.None?
      ensures played || !allRefs ==> running == old(running) && starts == old(starts)
      ensures !played && allRefs ==> running && starts == old(starts) + 1
    {
      fallbackDue := None;
      Play(allRefs);
    }

    /** The timeline's last callback: the buttons are in and the reveal
      counts as played. */
    method TimelineEnd()
      requires Valid() && running
      modifies this`running, this`shown, this`played
      ensures Valid()
      ensures played && shown && !running
    {
      running, shown, played := false, true, true;
    }

    /** Unmount: the listener, the fallback and the timeline go. */
    method Unmount()
      requires Valid()
      modifies this`listening, this`fallbackDue, this`running
      ensures Valid()
      ensures !listening && fallbackDue.None? && !running
    {
      listening, fallbackDue, running := false, None, false;
    }
  }

  /** Once played, neither the event nor the fallback starts the reveal
      again while on the home page; leaving and coming back plays it
      anew. */
  method PlayedOncePerVisit() returns (startsOnFirstVisit: nat, startsAfterReturn: nat)
    ensures startsOnFirstVisit == 1 && startsAfterReturn == 2
  {
    var r := new Reveal(true, 0.0);
    r.RevealEvent(true);
    r.TimelineEnd();
    r.Fallback(FallbackMs, true);
    r.RevealEvent(true);
    startsOnFirstVisit := r.starts;
    r.Route(false, 5000.0);
    r.Route(true, 6000.0);
    r.RevealEvent(true);
    startsAfterReturn := r.starts;
  }

  /** The played flag is only set when the timeline ends, so a fallback
      that fires while the event-started timeline still runs starts it a
      second time. */
  method FallbackDuringReveal() returns (starts: nat)
    ensures starts == 2
  {
    var r := new Reveal(true, 0.0);
    r.RevealEvent(true);
    r.Fallback(FallbackMs, true);
    starts := r.starts;
  }
}
